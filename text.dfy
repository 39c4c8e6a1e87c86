/** The JavaScript string operations the tutoring engine is built from: `trim`, `toLowerCase`,
    `includes`, `split` on one character, `join`, `replace` of the first occurrence. */
module Text {
  import opened Seqs

  /** The characters `String.prototype.trim` removes: ECMAScript WhiteSpace and LineTerminator. */
  predicate IsWhitespace(c: char) {
    c == '\t' || c == '\n' || c == '\U{000B}' || c == '\U{000C}' || c == '\r' || c == ' '
    || c == '\U{00A0}' || c == '\U{1680}' || ('\U{2000}' <= c <= '\U{200A}')
    || c == '\U{2028}' || c == '\U{2029}' || c == '\U{202F}' || c == '\U{205F}'
    || c == '\U{3000}' || c == '\U{FEFF}'
  }

  /** Neither end of `s` is whitespace: what `trim` leaves behind. */
  predicate IsTrimmed(s: string) {
    s == [] || (!IsWhitespace(s[0]) && !IsWhitespace(s[|s| - 1]))
  }

  /** `s.trimStart()`: the longest suffix of `s` that does not start with whitespace. */
  function TrimStart(s: string): (r: string)
    ensures |r| <= |s| && r == s[|s| - |r|..]
    ensures forall k :: 0 <= k < |s| - |r| ==> IsWhitespace(s[k])
    ensures r == [] || !IsWhitespace(r[0])
  {
    if s != [] && IsWhitespace(s[0]) then TrimStart(s[1..]) else s
  }

  /** `s.trimEnd()`: the longest prefix of `s` that does not end with whitespace. */
  function TrimEnd(s: string): (r: string)
    ensures |r| <= |s| && r == s[..|r|]
    ensures forall k :: |r| <= k < |s| ==> IsWhitespace(s[k])
    ensures r == [] || !IsWhitespace(r[|r| - 1])
  {
    if s != [] && IsWhitespace(s[|s| - 1]) then TrimEnd(s[..|s| - 1]) else s
  }

  /** `r` is the slice of `s` starting at `a`, and everything of `s` before and after it
      is whitespace. */
  predicate StrippedAt(s: string, r: string, a: int) {
    && 0 <= a <= a + |r| <= |s|
    && r == s[a..a + |r|]
    && (forall k :: 0 <= k < a ==> IsWhitespace(s[k]))
    && (forall k :: a + |r| <= k < |s| ==> IsWhitespace(s[k]))
  }

  /** A prefix of a suffix of `s` is a slice of `s`; whitespace around it in the suffix and
      before the suffix is whitespace around it in `s`. */
  lemma PrefixOfSuffixStripped(s: string, t: string, r: string, a: int)
    requires 0 <= a <= |s| && t == s[a..]
    requires |r| <= |t| && r == t[..|r|]
    requires forall k :: 0 <= k < a ==> IsWhitespace(s[k])
    requires forall k :: |r| <= k < |t| ==> IsWhitespace(t[k])
    ensures StrippedAt(s, r, a)
  {
    assert r == s[a..a + |r|];
    forall k | a + |r| <= k < |s| ensures IsWhitespace(s[k]) {
      assert s[k] == t[k - a];
    }
  }

  /** Stripping the start and then the end leaves a slice with only whitespace around it. */
  lemma BothEndsStripped(s: string)
    ensures StrippedAt(s, TrimEnd(TrimStart(s)), |s| - |TrimStart(s)|)
  {
    var t := TrimStart(s);
    PrefixOfSuffixStripped(s, t, TrimEnd(t), |s| - |t|);
  }

  /** `s.trim()`: the slice of `s` left after stripping whitespace from both ends. The result
      is trimmed, and it is empty exactly when `s` is all whitespace,
      which is how the source's `if (s.trim())` and `filter(o => o.trim())` read it. */
  function Trim(s: string): (r: string)
    ensures |r| <= |s|
    ensures IsTrimmed(r)
    ensures r == [] <==> forall k :: 0 <= k < |s| ==> IsWhitespace(s[k])
    ensures forall c :: c in r ==> c in s
    ensures exists a :: StrippedAt(s, r, a)
  {
    var t := TrimStart(s);
    var r := TrimEnd(t);
    BothEndsStripped(s);
    assert t != [] ==> r != [] && r[0] == t[0];
    assert (forall k :: 0 <= k < |s| ==> IsWhitespace(s[k])) ==> t == [] by {
      if t != [] { assert t[0] == s[|s| - |t|]; }
    }
    r
  }

  /** A trimmed string is a fixed point of `trim`. */
  lemma TrimOfTrimmed(s: string)
    requires IsTrimmed(s)
    ensures Trim(s) == s
  {
  }

  /** `trim` is idempotent. */
  lemma TrimIdempotent(s: string)
    ensures Trim(Trim(s)) == Trim(s)
  {
    TrimOfTrimmed(Trim(s));
  }

  /** Leading whitespace does not survive `trim`. */
  lemma {:induction false} TrimAfterSpace(s: string)
    ensures Trim(" " + s) == Trim(s)
  {
    assert (" " + s)[1..] == s;
  }

  /** ASCII upper-case letters map to lower case; every other character is unchanged. */
  function LowerChar(c: char): char {
    if 'A' <= c <= 'Z' then (c as int + 32) as char else c
  }

  predicate IsUpperAscii(c: char) {
    'A' <= c <= 'Z'
  }

  /** `s.toLowerCase()`, restricted to ASCII letters: same length, each capital replaced by
      its small letter (32 code points on), every other character in place. */
  function ToLower(s: string): (r: string)
    ensures |r| == |s|
    ensures forall i :: 0 <= i < |r| ==> !IsUpperAscii(r[i])
    ensures forall i :: 0 <= i < |r| && !IsUpperAscii(s[i]) ==> r[i] == s[i]
    ensures forall i :: 0 <= i < |r| && IsUpperAscii(s[i]) ==> r[i] as int == s[i] as int + 32
  {
    seq(|s|, i requires 0 <= i < |s| => LowerChar(s[i]))
  }

  /** Lower-casing twice is lower-casing once. */
  lemma ToLowerIdempotent(s: string)
    ensures ToLower(ToLower(s)) == ToLower(s)
  {
  }

  /** `hay.includes(needle)`: `needle` occurs in `hay` as a contiguous piece. */
  predicate Contains(hay: string, needle: string) {
    exists i :: 0 <= i <= |hay| && OccursAt(hay, needle, i)
  }

  /** `needle` occurs in `hay` starting at position `i`. */
  predicate OccursAt(hay: string, needle: string, i: int) {
    0 <= i <= |hay| - |needle| && hay[i..i + |needle|] == needle
  }

  /** Every string contains the empty string, and a string contains itself. */
  lemma ContainsTrivial(s: string)
    ensures Contains(s, "")
    ensures Contains(s, s)
  {
    assert OccursAt(s, "", 0);
    assert OccursAt(s, s, 0);
  }

  /** A contained string is no longer than its container. */
  lemma ContainsShorter(hay: string, needle: string)
    requires Contains(hay, needle)
    ensures |needle| <= |hay|
  {
  }

  /** `s.indexOf(c)` where `c` occurs in `s`: the first position holding `c`. */
  function IndexOf(s: string, c: char): (i: nat)
    requires c in s
    ensures i < |s| && s[i] == c && c !in s[..i]
  {
    if s[0] == c then 0
    else
      assert c in s[1..];
      var j := IndexOf(s[1..], c);
      assert s[..j + 1] == [s[0]] + s[1..][..j];
      j + 1
  }

  /** How many times `c` occurs in `s`. */
  function Occurrences(s: string, c: char): nat {
    multiset(s)[c]
  }

  /** `s.split(sep)` for a one-character separator: the pieces between separators. */
  function Split(s: string, sep: char): (parts: seq<string>)
    ensures |parts| >= 1
    decreases |s|
  {
    if sep !in s then [s]
    else
      var i := IndexOf(s, sep);
      [s[..i]] + Split(s[i + 1..], sep)
  }

  /** No piece contains the separator. */
  lemma {:induction false} SplitPiecesFree(s: string, sep: char)
    ensures forall p :: p in Split(s, sep) ==> sep !in p
    decreases |s|
  {
    if sep in s {
      var i := IndexOf(s, sep);
      SplitPiecesFree(s[i + 1..], sep);
      assert Split(s, sep) == [s[..i]] + Split(s[i + 1..], sep);
    }
  }

  /** There is always one more piece than there are separators. */
  lemma {:induction false} SplitCount(s: string, sep: char)
    ensures |Split(s, sep)| == Occurrences(s, sep) + 1
    decreases |s|
  {
    if sep !in s {
      assert multiset(s)[sep] == 0;
    } else {
      var i := IndexOf(s, sep);
      SplitCount(s[i + 1..], sep);
      assert s == s[..i] + [sep] + s[i + 1..];
      assert multiset(s) == multiset(s[..i]) + multiset{sep} + multiset(s[i + 1..]) by {
        assert multiset(s) == multiset(s[..i] + [sep]) + multiset(s[i + 1..]);
      }
      assert multiset(s[..i])[sep] == 0;
    }
  }

  /** The first separator of `x + [sep] + y` is the first one of `x`, or the inserted one. */
  lemma IndexOfConcat(x: string, y: string, sep: char)
    ensures sep in x + [sep] + y
    ensures IndexOf(x + [sep] + y, sep) == if sep in x then IndexOf(x, sep) else |x|
  {
    var s := x + [sep] + y;
    assert s[|x|] == sep;
    var i := IndexOf(s, sep);
    assert s[..|x|] == x;
    if sep in x {
      var j := IndexOf(x, sep);
      assert s[j] == sep;
    } else {
    }
  }

  /** `parts.join(sep)`: the parts with `sep` between neighbours. */
  function Join(parts: seq<string>, sep: string): string
    decreases |parts|
  {
    if |parts| == 0 then ""
    else if |parts| == 1 then parts[0]
    else parts[0] + sep + Join(parts[1..], sep)
  }

  /** Splitting at the first separator, wherever it is. */
  lemma SplitAt(s: string, i: nat, sep: char)
    requires i < |s| && s[i] == sep && sep !in s[..i]
    ensures Split(s, sep) == [s[..i]] + Split(s[i + 1..], sep)
  {
    assert sep in s;
    var j := IndexOf(s, sep);
    assert s[..j + 1][j] == sep && s[..i + 1][i] == sep;
  }

  /** A separator after a part that has none closes the first piece. */
  lemma SplitAfterPiece(x: string, y: string, sep: char)
    requires sep !in x
    ensures Split(x + [sep] + y, sep) == [x] + Split(y, sep)
  {
    var s := x + [sep] + y;
    assert s[..|x|] == x && s[|x| + 1..] == y;
    SplitAt(s, |x|, sep);
  }

  /** A leading separator gives an empty first piece. */
  lemma SplitLeadingSep(y: string, sep: char)
    ensures Split([sep] + y, sep) == [""] + Split(y, sep)
  {
    assert [sep] + y == [] + [sep] + y;
    SplitAfterPiece([], y, sep);
  }

  /** A separator after a part that has one leaves the part's first piece in front. */
  lemma SplitBeforeSep(x: string, y: string, sep: char, j: nat)
    requires j < |x| && x[j] == sep && sep !in x[..j]
    ensures Split(x + [sep] + y, sep) == [x[..j]] + Split(x[j + 1..] + [sep] + y, sep)
  {
    var s := x + [sep] + y;
    assert s[..j] == x[..j];
    assert s[j + 1..] == x[j + 1..] + [sep] + y;
    SplitAt(s, j, sep);
  }

  /** Splitting at one separator splits the two sides independently. */
  lemma {:induction false} SplitConcat(x: string, y: string, sep: char)
    ensures Split(x + [sep] + y, sep) == Split(x, sep) + Split(y, sep)
    decreases |x|
  {
    if sep !in x {
      SplitAfterPiece(x, y, sep);
    } else {
      var j := IndexOf(x, sep);
      SplitBeforeSep(x, y, sep, j);
      SplitAt(x, j, sep);
      SplitConcat(x[j + 1..], y, sep);
      ConsAssoc(x[..j], Split(x[j + 1..] + [sep] + y, sep), Split(x[j + 1..], sep), Split(y, sep));
    }
  }

  /** Joining a first part onto a non-empty rest puts one separator between them. */
  lemma JoinCons(first: string, rest: seq<string>, sep: string)
    requires |rest| >= 1
    ensures Join([first] + rest, sep) == first + sep + Join(rest, sep)
  {
    assert ([first] + rest)[1..] == rest;
  }

  /** Joining pieces that do not contain the separator, then splitting, gives the pieces back. */
  lemma {:induction false} SplitOfJoin(parts: seq<string>, sep: char)
    requires |parts| >= 1
    requires forall p :: p in parts ==> sep !in p
    ensures Split(Join(parts, [sep]), sep) == parts
    decreases |parts|
  {
    if |parts| == 1 {
      assert Join(parts, [sep]) == parts[0];
    } else {
      var first, rest := parts[0], parts[1..];
      assert parts == [first] + rest;
      JoinCons(first, rest, [sep]);
      SplitConcat(first, Join(rest, [sep]), sep);
      assert sep !in first;
      SplitOfJoin(rest, sep);
    }
  }

  /** Splitting, then joining with the same separator, gives the string back. */
  lemma {:induction false} JoinOfSplit(s: string, sep: char)
    ensures Join(Split(s, sep), [sep]) == s
    decreases |s|
  {
    if sep in s {
      var i := IndexOf(s, sep);
      var rest := Split(s[i + 1..], sep);
      assert Split(s, sep) == [s[..i]] + rest;
      JoinCons(s[..i], rest, [sep]);
      JoinOfSplit(s[i + 1..], sep);
      assert s == s[..i] + [sep] + s[i + 1..];
    }
  }

  /** `parts.map(t => t.trim())`. */
  function TrimEach(parts: seq<string>): (r: seq<string>)
    ensures |r| == |parts|
    ensures forall i :: 0 <= i < |r| ==> r[i] == Trim(parts[i])
  {
    Map(Trim, parts)
  }

  /** Trimming never introduces a character, so pieces free of `c` stay free of it. */
  lemma TrimEachFree(parts: seq<string>, c: char)
    requires forall p :: p in parts ==> c !in p
    ensures forall t :: t in TrimEach(parts) ==> c !in t
  {
    forall t | t in TrimEach(parts) ensures c !in t {
      var i :| 0 <= i < |parts| && TrimEach(parts)[i] == t;
      assert parts[i] in parts;
    }
  }

  /** The JavaScript truthiness of `s.trim()`. */
  predicate NotBlank(s: string) {
    Trim(s) != []
  }

  /** `parts.filter(o => o.trim())`: drops the pieces that are blank after trimming,
      and keeps the survivors as they were, in order. */
  function KeepNotBlank(parts: seq<string>): (r: seq<string>)
    ensures forall p :: p in r <==> p in parts && Trim(p) != []
    ensures forall p :: multiset(r)[p] == if Trim(p) != [] then multiset(parts)[p] else 0
    ensures IsSubsequence(r, parts)
  {
    FilterIsSubsequence(NotBlank, parts);
    forall p ensures multiset(Filter(NotBlank, parts))[p] == if Trim(p) != [] then multiset(parts)[p] else 0 {
      FilterMultiplicity(NotBlank, parts, p);
    }
    Filter(NotBlank, parts)
  }

  /** `s.replace(from, to)` with a one-character pattern: only the first occurrence changes. */
  function ReplaceFirst(s: string, from: char, to: char): (r: string)
    ensures |r| == |s|
    ensures from !in s ==> r == s
  {
    if from !in s then s
    else
      var i := IndexOf(s, from);
      s[..i] + [to] + s[i + 1..]
  }

  /** Mapping then concatenating is concatenating then mapping. */
  lemma TrimEachConcat(a: seq<string>, b: seq<string>)
    ensures TrimEach(a + b) == TrimEach(a) + TrimEach(b)
  {
    MapConcat(Trim, a, b);
  }

  /** Only the first `from` changes: the part before it has none. */
  lemma ReplaceFirstAt(before: string, from: char, to: char, after: string)
    requires from !in before
    ensures ReplaceFirst(before + [from] + after, from, to) == before + [to] + after
  {
    var s := before + [from] + after;
    assert s[|before|] == from && s[..|before|] == before && s[|before| + 1..] == after;
  }
}
