/** The text handling the input handler applies to a reply: `str.strip`, the
    phone number's `replace(" ", "")`, the interval's `isdigit` / `int` pair
    and the destination list's `split` followed by the `@` filter.
    Characters are restricted to ASCII: whitespace is what Python's
    `str.isspace` accepts below 128, digits are '0'..'9'. */
module Parsing {

  /** Python's ASCII whitespace: TAB, LF, VT, FF, CR, the four separators
      0x1C..0x1F, and SPACE. */
  predicate IsSpace(c: char)
  {
    c == ' ' || ('\t' <= c <= '\r') || ('\U{1C}' <= c <= '\U{1F}')
  }

  predicate IsDigit(c: char)
  {
    '0' <= c <= '9'
  }

  // ---------------------------------------------------------------------
  // replace(" ", ""): the phone number normalisation

  /** `s.replace(" ", "")`: drops every SPACE and keeps every other
      character, in order. Only U+0020 is removed, not other whitespace. */
  function RemoveSpaces(s: string): (r: string)
    ensures forall i :: 0 <= i < |r| ==> r[i] != ' '
    ensures forall c :: c != ' ' ==> multiset(r)[c] == multiset(s)[c]
    ensures |r| <= |s|
  {
    if s == [] then []
    else
      var rest := RemoveSpaces(s[1..]);
      assert s == [s[0]] + s[1..];
      if s[0] == ' ' then rest else [s[0]] + rest
  }

  /** Removing spaces is a homomorphism of concatenation, so the characters
      kept are kept in their original order. */
  lemma {:induction false} RemoveSpacesAppend(a: string, b: string)
    ensures RemoveSpaces(a + b) == RemoveSpaces(a) + RemoveSpaces(b)
  {
    if a == [] {
      assert a + b == b;
    } else {
      assert (a + b)[1..] == a[1..] + b;
      RemoveSpacesAppend(a[1..], b);
    }
  }

  /** A string is left alone exactly when it holds no SPACE. */
  lemma {:induction false} RemoveSpacesFixpoint(s: string)
    ensures RemoveSpaces(s) == s <==> forall i :: 0 <= i < |s| ==> s[i] != ' '
  {
    if s != [] && forall i :: 0 <= i < |s| ==> s[i] != ' ' {
      RemoveSpacesFixpoint(s[1..]);
      assert forall i :: 0 <= i < |s[1..]| ==> s[1..][i] == s[i + 1];
    }
  }

  /** Normalising twice is normalising once. */
  lemma RemoveSpacesIdempotent(s: string)
    ensures RemoveSpaces(RemoveSpaces(s)) == RemoveSpaces(s)
  {
    RemoveSpacesFixpoint(RemoveSpaces(s));
  }

  // ---------------------------------------------------------------------
  // strip(): applied to every incoming message

  /** Number of whitespace characters at the start of `s`. */
  function LeadingSpaces(s: string): (n: nat)
    ensures n <= |s|
    ensures forall i :: 0 <= i < n ==> IsSpace(s[i])
    ensures n < |s| ==> !IsSpace(s[n])
  {
    if s == [] || !IsSpace(s[0]) then 0 else 1 + LeadingSpaces(s[1..])
  }

  /** Number of whitespace characters at the end of `s`. */
  function TrailingSpaces(s: string): (n: nat)
    ensures n <= |s|
    ensures forall i :: |s| - n <= i < |s| ==> IsSpace(s[i])
    ensures n < |s| ==> !IsSpace(s[|s| - 1 - n])
  {
    if s == [] || !IsSpace(s[|s| - 1]) then 0
    else 1 + TrailingSpaces(s[..|s| - 1])
  }

  /** `s.strip()`: the infix of `s` left after removing whitespace at both
      ends. Everything outside it is whitespace and it neither starts nor
      ends with whitespace, which determines it uniquely. */
  function Strip(s: string): (r: string)
    ensures LeadingSpaces(s) + |r| <= |s|
    ensures r == s[LeadingSpaces(s)..LeadingSpaces(s) + |r|]
    ensures forall i :: 0 <= i < |s| && !(LeadingSpaces(s) <= i < LeadingSpaces(s) + |r|) ==> IsSpace(s[i])
    ensures r == [] || (!IsSpace(r[0]) && !IsSpace(r[|r| - 1]))
  {
    var a := LeadingSpaces(s);
    var t := s[a..];
    var b := TrailingSpaces(t);
    assert b < |t| ==> !IsSpace(t[|t| - 1 - b]);
    t[..|t| - b]
  }

  /** A string with no whitespace at either end is its own strip. */
  lemma StripUnchanged(s: string)
    requires s == [] || (!IsSpace(s[0]) && !IsSpace(s[|s| - 1]))
    ensures Strip(s) == s
  {
    assert LeadingSpaces(s) == 0;
    assert TrailingSpaces(s) == 0;
  }

  /** Stripping twice is stripping once. */
  lemma StripIdempotent(s: string)
    ensures Strip(Strip(s)) == Strip(s)
  {
    StripUnchanged(Strip(s));
  }

  // ---------------------------------------------------------------------
  // isdigit() and int(): the interval reply

  /** `s.isdigit()` on ASCII: non-empty and made of digits only. */
  predicate IsDigits(s: string)
  {
    |s| > 0 && forall i :: 0 <= i < |s| ==> IsDigit(s[i])
  }

  predicate AllDigits(s: string)
  {
    forall i :: 0 <= i < |s| ==> IsDigit(s[i])
  }

  function DigitValue(c: char): (d: nat)
    requires IsDigit(c)
    ensures d < 10
  {
    (c as int) - ('0' as int)
  }

  function DigitChar(d: nat): (c: char)
    requires d < 10
    ensures IsDigit(c) && DigitValue(c) == d
  {
    (('0' as int) + d) as char
  }

  /** `int(s)` for a string of decimal digits (leading zeros allowed). */
  function DecimalValue(s: string): nat
    requires AllDigits(s)
  {
    if s == [] then 0
    else 10 * DecimalValue(s[..|s| - 1]) + DigitValue(s[|s| - 1])
  }

  /** `str(n)`: the canonical decimal spelling, without leading zeros. */
  function Decimal(n: nat): (r: string)
    ensures IsDigits(r)
    ensures r[0] == '0' ==> r == "0"
  {
    if n < 10 then [DigitChar(n)]
    else Decimal(n / 10) + [DigitChar(n % 10)]
  }

  /** Reading back the spelling of a number gives the number: every interval
      the user can type as `str(n)` is accepted and stored as `n`. */
  lemma {:induction false} DecimalRoundTrip(n: nat)
    ensures DecimalValue(Decimal(n)) == n
  {
    var r := Decimal(n);
    if n >= 10 {
      assert r[..|r| - 1] == Decimal(n / 10);
      DecimalRoundTrip(n / 10);
    } else {
      assert r[..|r| - 1] == [];
    }
  }

  /** Leading zeros do not change the value: "010" sets the interval to 10. */
  lemma {:induction false} LeadingZeroIgnored(s: string)
    requires AllDigits(s)
    ensures DecimalValue("0" + s) == DecimalValue(s)
  {
    var z := "0" + s;
    if s == [] {
      assert z[..|z| - 1] == [];
    } else {
      assert z[..|z| - 1] == "0" + s[..|s| - 1];
      LeadingZeroIgnored(s[..|s| - 1]);
    }
  }

  // ---------------------------------------------------------------------
  // split() and the '@' filter: the destination list reply

  /** A token of `str.split()`: non-empty, without whitespace. */
  predicate IsWord(w: string)
  {
    |w| > 0 && forall i :: 0 <= i < |w| ==> !IsSpace(w[i])
  }

  /** `g.startswith('@')`. */
  predicate IsHandle(g: string)
  {
    |g| > 0 && g[0] == '@'
  }

  /** Length of the longest whitespace-free prefix of `s`. */
  function TokenLength(s: string): (n: nat)
    ensures n <= |s|
    ensures forall i :: 0 <= i < n ==> !IsSpace(s[i])
    ensures n < |s| ==> IsSpace(s[n])
  {
    if s == [] || IsSpace(s[0]) then 0 else 1 + TokenLength(s[1..])
  }

  /** `s.split()`: the maximal runs of non-whitespace, in order. */
  function Words(s: string): (ws: seq<string>)
    ensures forall i :: 0 <= i < |ws| ==> IsWord(ws[i])
    decreases |s|
  {
    if s == [] then []
    else if IsSpace(s[0]) then Words(s[1..])
    else
      var n := TokenLength(s);
      [s[..n]] + Words(s[n..])
  }

  /** `" ".join(ws)`, the inverse of `Words` on lists of tokens. */
  function JoinWords(ws: seq<string>): string
  {
    if |ws| == 0 then []
    else if |ws| == 1 then ws[0]
    else ws[0] + " " + JoinWords(ws[1..])
  }

  /** A token followed by nothing or by whitespace is read whole. */
  lemma {:induction false} TokenLengthOfWord(w: string, t: string)
    requires IsWord(w)
    requires t == [] || IsSpace(t[0])
    ensures TokenLength(w + t) == |w|
  {
    assert (w + t)[1..] == w[1..] + t;
    if |w| > 1 {
      TokenLengthOfWord(w[1..], t);
    } else {
      assert w[1..] + t == t;
    }
  }

  lemma WordThen(w: string, t: string)
    requires IsWord(w)
    requires t == [] || IsSpace(t[0])
    ensures Words(w + t) == [w] + Words(t)
  {
    var s := w + t;
    var n := TokenLength(s);
    TokenLengthOfWord(w, t);
    assert s[..n] == w && s[n..] == t;
  }

  /** Splitting a space-joined list of tokens gives back the list. */
  lemma {:induction false} WordsOfJoin(ws: seq<string>)
    requires forall i :: 0 <= i < |ws| ==> IsWord(ws[i])
    ensures Words(JoinWords(ws)) == ws
  {
    if |ws| == 1 {
      WordThen(ws[0], []);
      assert ws[0] + [] == ws[0];
    } else if |ws| > 1 {
      var rest := JoinWords(ws[1..]);
      assert ws[0] + " " + rest == ws[0] + (" " + rest);
      WordThen(ws[0], " " + rest);
      assert (" " + rest)[1..] == rest;
      WordsOfJoin(ws[1..]);
      assert ws == [ws[0]] + ws[1..];
    }
  }

  /** A string of whitespace only has no tokens. */
  lemma {:induction false} WordsOfSpaces(s: string)
    requires forall i :: 0 <= i < |s| ==> IsSpace(s[i])
    ensures Words(s) == []
  {
    if s != [] {
      WordsOfSpaces(s[1..]);
    }
  }

  /** A token that stops before the end of `a` stops at the same place
      whatever follows `a`. */
  lemma {:induction false} TokenLengthPrefix(a: string, t: string)
    requires TokenLength(a) < |a|
    ensures TokenLength(a + t) == TokenLength(a)
  {
    if !IsSpace(a[0]) {
      assert (a + t)[1..] == a[1..] + t;
      TokenLengthPrefix(a[1..], t);
    }
  }

  /** Any whitespace character separates tokens, and a run of several of
      them separates no differently from one: the tokens on either side are
      read independently. With `WordThen` and `WordsOfSpaces` this fixes
      `Words` on every input. */
  lemma {:induction false} WordsSplitAt(a: string, c: char, b: string)
    requires IsSpace(c)
    ensures Words(a + [c] + b) == Words(a) + Words(b)
    decreases |a|, 1
  {
    var s := a + [c] + b;
    if a == [] {
      assert s == [c] + b;
      assert s[1..] == b;
    } else if IsSpace(a[0]) {
      assert s[1..] == a[1..] + [c] + b;
      WordsSplitAt(a[1..], c, b);
    } else {
      WordsSplitAfterToken(a, c, b);
    }
  }

  /** The case of `WordsSplitAt` where `a` starts with a token. */
  lemma {:induction false} WordsSplitAfterToken(a: string, c: char, b: string)
    requires IsSpace(c) && a != [] && !IsSpace(a[0])
    ensures Words(a + [c] + b) == Words(a) + Words(b)
    decreases |a|, 0
  {
    var s := a + ([c] + b);
    assert s == a + [c] + b;
    var n := TokenLength(a);
    if n < |a| {
      TokenLengthPrefix(a, [c] + b);
      assert s[..n] == a[..n];
      assert s[n..] == a[n..] + [c] + b;
      WordsSplitAt(a[n..], c, b);
    } else {
      TokenLengthOfWord(a, [c] + b);
      assert s[..n] == a && s[n..] == [c] + b;
      assert a[..n] == a && a[n..] == [];
      assert ([c] + b)[1..] == b;
    }
  }

  /** A token has no whitespace to strip. */
  lemma StripWord(w: string)
    requires IsWord(w)
    ensures Strip(w) == w
  {
    StripUnchanged(w);
  }

  /** `[g.strip() for g in ws if g.startswith('@')]` over split tokens. */
  function KeepHandles(ws: seq<string>): (r: seq<string>)
    requires forall i :: 0 <= i < |ws| ==> IsWord(ws[i])
    ensures forall i :: 0 <= i < |r| ==> IsWord(r[i]) && IsHandle(r[i])
    ensures |r| <= |ws|
  {
    if ws == [] then []
    else
      var head := if IsHandle(ws[0]) then (StripWord(ws[0]); [Strip(ws[0])]) else [];
      head + KeepHandles(ws[1..])
  }

  /** The filter keeps exactly the handles: a token is kept if and only if it
      starts with '@'. */
  lemma {:induction false} KeepHandlesMembers(ws: seq<string>, g: string)
    requires forall i :: 0 <= i < |ws| ==> IsWord(ws[i])
    ensures g in KeepHandles(ws) <==> g in ws && IsHandle(g)
  {
    if ws != [] {
      KeepHandlesMembers(ws[1..], g);
      StripWord(ws[0]);
      assert ws == [ws[0]] + ws[1..];
    }
  }

  /** The filter keeps the relative order of the tokens. */
  lemma {:induction false} KeepHandlesAppend(a: seq<string>, b: seq<string>)
    requires forall i :: 0 <= i < |a| ==> IsWord(a[i])
    requires forall i :: 0 <= i < |b| ==> IsWord(b[i])
    ensures KeepHandles(a + b) == KeepHandles(a) + KeepHandles(b)
  {
    if a == [] {
      assert a + b == b;
    } else {
      assert (a + b)[1..] == a[1..] + b;
      KeepHandlesAppend(a[1..], b);
    }
  }

  /** A list made only of handles passes the filter untouched. */
  lemma {:induction false} KeepHandlesAll(ws: seq<string>)
    requires forall i :: 0 <= i < |ws| ==> IsWord(ws[i]) && IsHandle(ws[i])
    ensures KeepHandles(ws) == ws
  {
    if ws != [] {
      StripWord(ws[0]);
      KeepHandlesAll(ws[1..]);
    }
  }

  /** The destination list read from a reply: the whitespace-separated tokens
      that start with '@', in input order. */
  function ParseGroups(text: string): (gs: seq<string>)
    ensures forall i :: 0 <= i < |gs| ==> IsWord(gs[i]) && IsHandle(gs[i])
    ensures |gs| <= |Words(text)|
  {
    KeepHandles(Words(text))
  }

  /** A destination is stored if and only if it is one of the reply's tokens
      and starts with '@'. */
  lemma ParseGroupsMembers(text: string, g: string)
    ensures g in ParseGroups(text) <==> g in Words(text) && IsHandle(g)
  {
    KeepHandlesMembers(Words(text), g);
  }

  /** Typing a list of handles separated by single spaces stores exactly that
      list. */
  lemma ParseGroupsOfJoin(gs: seq<string>)
    requires forall i :: 0 <= i < |gs| ==> IsWord(gs[i]) && IsHandle(gs[i])
    ensures ParseGroups(JoinWords(gs)) == gs
  {
    WordsOfJoin(gs);
    KeepHandlesAll(gs);
  }

  /** The destinations on either side of any whitespace character are read
      independently and kept in order, so TABs and runs of spaces between
      handles change nothing. */
  lemma ParseGroupsSplitAt(a: string, c: char, b: string)
    requires IsSpace(c)
    ensures ParseGroups(a + [c] + b) == ParseGroups(a) + ParseGroups(b)
  {
    WordsSplitAt(a, c, b);
    KeepHandlesAppend(Words(a), Words(b));
  }

  /** A reply of whitespace only clears the destination list. */
  lemma ParseGroupsOfSpaces(text: string)
    requires forall i :: 0 <= i < |text| ==> IsSpace(text[i])
    ensures ParseGroups(text) == []
  {
    WordsOfSpaces(text);
  }
}
