/** Python `str` operations used by the extractors, the merge and the generator,
    written over `seq<char>`. Case mapping is restricted to ASCII letters. */
module Text {

  /** The two quote characters of a Python string literal. */
  const Quotes: set<char> := {'\'', '"'}

  /** The characters for which Python's `str.isspace()` is true; `str.strip()`
      with no argument removes exactly these. */
  const Whitespace: set<char> :=
    {'\t', '\n', '\U{000B}', '\U{000C}', '\r', '\U{001C}', '\U{001D}', '\U{001E}', '\U{001F}', ' ',
     '\U{0085}', '\U{00A0}', '\U{1680}', '\U{2000}', '\U{2001}', '\U{2002}', '\U{2003}', '\U{2004}',
     '\U{2005}', '\U{2006}', '\U{2007}', '\U{2008}', '\U{2009}', '\U{200A}', '\U{2028}', '\U{2029}',
     '\U{202F}', '\U{205F}', '\U{3000}'}

  predicate IsLower(c: char) { 'a' <= c <= 'z' }
  predicate IsUpper(c: char) { 'A' <= c <= 'Z' }
  predicate IsLetter(c: char) { IsLower(c) || IsUpper(c) }

  function UpperChar(c: char): (u: char)
    ensures !IsLower(u)
    ensures IsLetter(c) <==> IsLetter(u)
    ensures !IsLower(c) ==> u == c
  {
    if IsLower(c) then (c as int - 32) as char else c
  }

  function LowerChar(c: char): (l: char)
    ensures !IsUpper(l)
    ensures IsLetter(c) <==> IsLetter(l)
    ensures !IsUpper(c) ==> l == c
  {
    if IsUpper(c) then (c as int + 32) as char else c
  }

  /** `s.upper()` */
  function Upper(s: string): string
  {
    if |s| == 0 then [] else [UpperChar(s[0])] + Upper(s[1..])
  }

  /** Upper-casing keeps the length and the letters, and leaves no lower-case
      letter. */
  lemma {:induction false} UpperShape(s: string)
    ensures |Upper(s)| == |s|
    ensures forall i :: 0 <= i < |s| ==> !IsLower(Upper(s)[i])
    ensures forall i :: 0 <= i < |s| ==> IsLetter(Upper(s)[i]) == IsLetter(s[i])
    ensures forall i :: 0 <= i < |s| ==> (!IsLower(s[i]) ==> Upper(s)[i] == s[i])
  {
    if |s| > 0 {
      UpperShape(s[1..]);
    }
  }

  /** Upper-casing leaves alone a string that has no lower-case letter, so it
      is idempotent. */
  lemma {:induction false} UpperFixesUpper(s: string)
    requires forall i :: 0 <= i < |s| ==> !IsLower(s[i])
    ensures Upper(s) == s
  {
    if |s| > 0 {
      UpperFixesUpper(s[1..]);
    }
  }

  /** Upper-casing works character by character. */
  lemma {:induction false} UpperCharwise(s: string, u: string)
    requires |u| == |s|
    requires forall i :: 0 <= i < |s| ==> u[i] == UpperChar(s[i])
    ensures Upper(s) == u
  {
    if |s| > 0 {
      UpperCharwise(s[1..], u[1..]);
      assert u == [u[0]] + u[1..];
    }
  }

  lemma {:induction false} UpperIdempotent(s: string)
    ensures Upper(Upper(s)) == Upper(s)
  {
    UpperShape(s);
    UpperFixesUpper(Upper(s));
  }

  /** `s.title()` on ASCII: a letter is upper-cased when the character before
      it is not a letter, and lower-cased otherwise. */
  function TitleFrom(s: string, afterLetter: bool): (r: string)
    ensures |r| == |s|
  {
    if |s| == 0 then []
    else
      var c := s[0];
      [if !IsLetter(c) then c else if afterLetter then LowerChar(c) else UpperChar(c)]
        + TitleFrom(s[1..], IsLetter(c))
  }

  function Title(s: string): string { TitleFrom(s, false) }

  /** A word starts with an upper-case letter and continues in lower case. */
  lemma {:induction false} TitleShape(s: string, afterLetter: bool, i: nat)
    requires i < |s|
    ensures IsLetter(TitleFrom(s, afterLetter)[i]) == IsLetter(s[i])
    ensures !IsLetter(s[i]) ==> TitleFrom(s, afterLetter)[i] == s[i]
    ensures IsLetter(s[i]) && (if i == 0 then !afterLetter else !IsLetter(s[i - 1]))
            ==> IsUpper(TitleFrom(s, afterLetter)[i])
    ensures IsLetter(s[i]) && (if i == 0 then afterLetter else IsLetter(s[i - 1]))
            ==> IsLower(TitleFrom(s, afterLetter)[i])
  {
    if i > 0 {
      TitleShape(s[1..], IsLetter(s[0]), i - 1);
    }
  }

  /** Title-casing is idempotent. */
  lemma {:induction false} TitleIdempotentFrom(s: string, afterLetter: bool)
    ensures TitleFrom(TitleFrom(s, afterLetter), afterLetter) == TitleFrom(s, afterLetter)
  {
    if |s| > 0 {
      TitleIdempotentFrom(s[1..], IsLetter(s[0]));
    }
  }

  /** Number of leading characters of `s` that belong to `cs` (LeadingInSpec). */
  function LeadingIn(s: string, cs: set<char>): (n: nat)
    ensures n <= |s|
  {
    if |s| == 0 || s[0] !in cs then 0 else 1 + LeadingIn(s[1..], cs)
  }

  /** The first `LeadingIn` characters belong to `cs`, and the next one does not. */
  lemma {:induction false} LeadingInSpec(s: string, cs: set<char>)
    ensures forall k :: 0 <= k < LeadingIn(s, cs) ==> s[k] in cs
    ensures LeadingIn(s, cs) == |s| || s[LeadingIn(s, cs)] !in cs
  {
    if |s| > 0 && s[0] in cs {
      LeadingInSpec(s[1..], cs);
    }
  }

  /** Number of trailing characters of `s` that belong to `cs` (TrailingInSpec). */
  function TrailingIn(s: string, cs: set<char>): (n: nat)
    ensures n <= |s|
  {
    if |s| == 0 || s[|s| - 1] !in cs then 0 else 1 + TrailingIn(s[..|s| - 1], cs)
  }

  /** The last `TrailingIn` characters belong to `cs`, and the one before them
      does not. */
  lemma {:induction false} TrailingInSpec(s: string, cs: set<char>)
    ensures forall k :: |s| - TrailingIn(s, cs) <= k < |s| ==> s[k] in cs
    ensures TrailingIn(s, cs) == |s| || s[|s| - TrailingIn(s, cs) - 1] !in cs
  {
    if |s| > 0 && s[|s| - 1] in cs {
      TrailingInSpec(s[..|s| - 1], cs);
    }
  }

  /** `s.strip(chars)`: drops the leading and then the trailing characters of
      `cs` (StripShape, StripIsInfix). */
  function Strip(s: string, cs: set<char>): string
  {
    var i := LeadingIn(s, cs);
    var r := s[i..];
    r[..|r| - TrailingIn(r, cs)]
  }

  /** What `strip` leaves neither starts nor ends with a character of `cs`. */
  lemma StripShape(s: string, cs: set<char>)
    ensures var r := Strip(s, cs); |r| == 0 || (r[0] !in cs && r[|r| - 1] !in cs)
  {
    var i := LeadingIn(s, cs);
    var r := s[i..];
    LeadingInSpec(s, cs);
    TrailingInSpec(r, cs);
  }

  /** What `strip` leaves is an infix of `s`, and only characters of `cs`
      were removed on either side. */
  lemma {:induction false} StripIsInfix(s: string, cs: set<char>)
    ensures exists i, j :: 0 <= i <= j <= |s| && Strip(s, cs) == s[i..j]
                           && (forall k :: 0 <= k < i ==> s[k] in cs)
                           && (forall k :: j <= k < |s| ==> s[k] in cs)
  {
    var i := LeadingIn(s, cs);
    var r := s[i..];
    var j := |r| - TrailingIn(r, cs);
    LeadingInSpec(s, cs);
    TrailingInSpec(r, cs);
    assert s[i..][..j] == s[i..i + j];
    assert forall k :: i + j <= k < |s| ==> s[k] == r[k - i];
  }

  /** A string that neither starts nor ends with a character of `cs` is left
      as it is. */
  lemma StripFixed(s: string, cs: set<char>)
    requires |s| == 0 || (s[0] !in cs && s[|s| - 1] !in cs)
    ensures Strip(s, cs) == s
  {
    assert s[0..] == s;
    assert s[..|s|] == s;
  }

  /** A leading character of `cs` makes no difference to what `strip` leaves. */
  lemma StripDropsLeading(c: char, s: string, cs: set<char>)
    requires c in cs
    ensures Strip([c] + s, cs) == Strip(s, cs)
  {
    var t := [c] + s;
    assert t[1..] == s;
    assert LeadingIn(t, cs) == 1 + LeadingIn(s, cs);
    assert t[LeadingIn(t, cs)..] == s[LeadingIn(s, cs)..];
  }

  /** `s.find(c)`: the index of the first `c`, or -1 (FindSpec). */
  function Find(s: string, c: char): (n: int)
    ensures -1 <= n < |s|
  {
    if |s| == 0 then -1
    else if s[0] == c then 0
    else
      var n := Find(s[1..], c);
      if n == -1 then -1 else n + 1
  }

  /** -1 exactly when `c` does not occur; otherwise an occurrence with none
      before it. */
  lemma {:induction false} FindSpec(s: string, c: char)
    ensures Find(s, c) == -1 <==> c !in s
    ensures Find(s, c) >= 0 ==> s[Find(s, c)] == c && c !in s[..Find(s, c)]
  {
    if |s| > 0 && s[0] != c {
      var rest := s[1..];
      FindSpec(rest, c);
      assert s == [s[0]] + rest;
      var n := Find(rest, c);
      if n != -1 {
        assert s[..n + 1] == [s[0]] + rest[..n];
      }
    }
  }

  /** `s.rfind(c)`: the index of the last `c`, or -1 (RFindSpec). */
  function RFind(s: string, c: char): (n: int)
    ensures -1 <= n < |s|
  {
    if |s| == 0 then -1
    else if s[|s| - 1] == c then |s| - 1
    else RFind(s[..|s| - 1], c)
  }

  /** -1 exactly when `c` does not occur; otherwise an occurrence with none
      after it. */
  lemma {:induction false} RFindSpec(s: string, c: char)
    ensures RFind(s, c) == -1 <==> c !in s
    ensures RFind(s, c) >= 0 ==> s[RFind(s, c)] == c && forall k :: RFind(s, c) < k < |s| ==> s[k] != c
  {
    if |s| > 0 && s[|s| - 1] != c {
      var init := s[..|s| - 1];
      RFindSpec(init, c);
      assert s == init + [s[|s| - 1]];
    }
  }

  /** `sep.join(parts)` */
  function Join(sep: string, parts: seq<string>): string
  {
    if |parts| == 0 then ""
    else if |parts| == 1 then parts[0]
    else parts[0] + sep + Join(sep, parts[1..])
  }

  /** `s.split(sep)` for a one-character separator: the pieces between the
      occurrences of `sep`, empty pieces included, taken from the last
      separator backwards. */
  function Split(s: string, sep: char): (parts: seq<string>)
    ensures |parts| >= 1
    decreases |s|
  {
    var r := RFind(s, sep);
    if r == -1 then [s] else Split(s[..r], sep) + [s[r + 1..]]
  }

  /** No piece of a split contains the separator. */
  lemma {:induction false} SplitPieces(s: string, sep: char)
    ensures forall k :: 0 <= k < |Split(s, sep)| ==> sep !in Split(s, sep)[k]
    decreases |s|
  {
    RFindSpec(s, sep);
    var r := RFind(s, sep);
    if r != -1 {
      SplitPieces(s[..r], sep);
      AfterLastAbsent(s, sep);
    }
  }

  /** What follows the last separator holds no separator. */
  lemma AfterLastAbsent(s: string, sep: char)
    requires RFind(s, sep) != -1
    ensures sep !in s[RFind(s, sep) + 1..]
  {
    RFindSpec(s, sep);
    var r := RFind(s, sep);
    var tail := s[r + 1..];
    forall k | 0 <= k < |tail|
      ensures tail[k] != sep
    {
      assert tail[k] == s[r + 1 + k];
    }
  }

  /** The last piece of a split is what follows the last separator, or the
      whole text when there is none. */
  lemma LastPieceAfterLastSeparator(s: string, sep: char)
    ensures Split(s, sep)[|Split(s, sep)| - 1] == s[RFind(s, sep) + 1..]
  {
    if RFind(s, sep) == -1 {
      assert s[0..] == s;
    }
  }

  /** Number of occurrences of `c` in `s`. */
  function Count(s: string, c: char): nat
  {
    if |s| == 0 then 0 else (if s[0] == c then 1 else 0) + Count(s[1..], c)
  }

  lemma {:induction false} CountAppend(a: string, b: string, c: char)
    ensures Count(a + b, c) == Count(a, c) + Count(b, c)
  {
    if |a| == 0 {
      assert a + b == b;
    } else {
      assert (a + b)[1..] == a[1..] + b;
      CountAppend(a[1..], b, c);
    }
  }

  lemma {:induction false} CountAbsent(s: string, c: char)
    requires c !in s
    ensures Count(s, c) == 0
  {
    if |s| > 0 {
      CountAbsent(s[1..], c);
    }
  }

  /** Joining one more piece appends the separator and the piece. */
  lemma {:induction false} JoinSnoc(sep: string, parts: seq<string>, x: string)
    requires |parts| >= 1
    ensures Join(sep, parts + [x]) == Join(sep, parts) + sep + x
  {
    if |parts| > 1 {
      assert (parts + [x])[1..] == parts[1..] + [x];
      JoinSnoc(sep, parts[1..], x);
    }
  }

  /** Joining the pieces of a split with the separator gives back the string. */
  lemma {:induction false} SplitJoin(s: string, sep: char)
    ensures Join([sep], Split(s, sep)) == s
    decreases |s|
  {
    RFindSpec(s, sep);
    var r := RFind(s, sep);
    if r != -1 {
      var head, tail := s[..r], s[r + 1..];
      SplitJoin(head, sep);
      JoinSnoc([sep], Split(head, sep), tail);
      assert s == head + [sep] + tail;
    }
  }

  /** A split makes one piece more than there are separators. */
  lemma {:induction false} SplitCount(s: string, sep: char)
    ensures |Split(s, sep)| == Count(s, sep) + 1
    decreases |s|
  {
    RFindSpec(s, sep);
    var r := RFind(s, sep);
    if r == -1 {
      CountAbsent(s, sep);
    } else {
      var head, tail := s[..r], s[r + 1..];
      SplitCount(head, sep);
      assert s == head + ([sep] + tail);
      CountAppend(head, [sep] + tail, sep);
      CountAppend([sep], tail, sep);
      AfterLastAbsent(s, sep);
      CountAbsent(tail, sep);
      assert Count([sep], sep) == 1;
    }
  }


  /** Python's `<` on strings: lexicographic by code point. */
  predicate Less(a: string, b: string)
  {
    if |a| == 0 then |b| > 0
    else if |b| == 0 then false
    else if a[0] != b[0] then a[0] < b[0]
    else Less(a[1..], b[1..])
  }

  lemma {:induction false} LessIrreflexive(a: string)
    ensures !Less(a, a)
  {
    if |a| > 0 {
      LessIrreflexive(a[1..]);
    }
  }

  lemma {:induction false} LessTrichotomy(a: string, b: string)
    ensures Less(a, b) || a == b || Less(b, a)
    ensures !(Less(a, b) && Less(b, a))
  {
    if |a| > 0 && |b| > 0 && a[0] == b[0] {
      LessTrichotomy(a[1..], b[1..]);
      if a[1..] == b[1..] {
        assert a == [a[0]] + a[1..] && b == [b[0]] + b[1..];
      }
    }
  }

  lemma {:induction false} LessTransitive(a: string, b: string, c: string)
    requires Less(a, b) && Less(b, c)
    ensures Less(a, c)
  {
    if |a| > 0 && a[0] == b[0] && b[0] == c[0] {
      LessTransitive(a[1..], b[1..], c[1..]);
    }
  }
}
