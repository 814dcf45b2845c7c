/**
 * Shared text helpers. Spreadsheet cells and API strings are ASCII text,
 * plus the accented Spanish letters: the accent stripping the source performs
 * with Unicode NFD decomposition is `FoldMark`, which folds those letters to
 * their base letters and is the identity on ASCII.
 */
module Text {

  datatype Option<T> = None | Some(value: T)

  /**
   * A spreadsheet or JSON cell as the source sees it: `None`, a bool, a
   * number (floats other than NaN are not modelled), NaN, or text.
   */
  datatype Cell = Null | Flag(b: bool) | Number(n: int) | NotANumber | Str(s: seq<char>)

  /** Python's `str.isspace` restricted to ASCII: tab to carriage return, the four separators, space. */
  predicate IsSpace(c: char) {
    9 <= c as int <= 13 || 28 <= c as int <= 32
  }

  predicate IsDigit(c: char) { '0' <= c <= '9' }
  predicate IsUpper(c: char) { 'A' <= c <= 'Z' }
  predicate IsLower(c: char) { 'a' <= c <= 'z' }
  predicate IsAlpha(c: char) { IsUpper(c) || IsLower(c) }
  predicate IsAlnum(c: char) { IsAlpha(c) || IsDigit(c) }
  predicate NotAlnum(c: char) { !IsAlnum(c) }

  function UpperChar(c: char): (r: char)
    ensures IsLower(c) ==> IsUpper(r)
    ensures !IsLower(c) ==> r == c
  {
    if IsLower(c) then (c as int - 32) as char else c
  }

  function LowerChar(c: char): (r: char)
    ensures IsUpper(c) ==> IsLower(r)
    ensures !IsUpper(c) ==> r == c
  {
    if IsUpper(c) then (c as int + 32) as char else c
  }

  /** `str.upper()` on ASCII text. */
  function Upper(s: seq<char>): (r: seq<char>)
    ensures |r| == |s|
    ensures forall i :: 0 <= i < |s| ==> r[i] == UpperChar(s[i])
  {
    if s == [] then [] else [UpperChar(s[0])] + Upper(s[1..])
  }

  /** Text with no lower-case letter is unchanged by `str.upper()`. */
  lemma UpperOfNoLower(s: seq<char>)
    requires forall i :: 0 <= i < |s| ==> !IsLower(s[i])
    ensures Upper(s) == s
  {
  }

  /** `str.lower()` on ASCII text. */
  function Lower(s: seq<char>): (r: seq<char>)
    ensures |r| == |s|
    ensures forall i :: 0 <= i < |s| ==> r[i] == LowerChar(s[i])
  {
    if s == [] then [] else [LowerChar(s[0])] + Lower(s[1..])
  }

  /** Leading whitespace removed (`str.lstrip()`). */
  function TrimStart(s: seq<char>): (r: seq<char>)
    ensures |r| <= |s|
  {
    if s != [] && IsSpace(s[0]) then TrimStart(s[1..]) else s
  }

  /** TrimStart drops a whitespace prefix and keeps the rest, which starts with a non-space. */
  lemma {:induction false} TrimStartShape(s: seq<char>)
    ensures TrimStart(s) == s[|s| - |TrimStart(s)|..]
    ensures TrimStart(s) != [] ==> !IsSpace(TrimStart(s)[0])
    ensures forall i :: 0 <= i < |s| - |TrimStart(s)| ==> IsSpace(s[i])
  {
    if s != [] && IsSpace(s[0]) {
      TrimStartShape(s[1..]);
    }
  }

  /** Trailing whitespace removed (`str.rstrip()`). */
  function TrimEnd(s: seq<char>): (r: seq<char>)
    ensures |r| <= |s|
  {
    if s != [] && IsSpace(s[|s| - 1]) then TrimEnd(s[..|s| - 1]) else s
  }

  /** TrimEnd drops a whitespace suffix and keeps the rest, which ends with a non-space. */
  lemma {:induction false} TrimEndShape(s: seq<char>)
    ensures TrimEnd(s) == s[..|TrimEnd(s)|]
    ensures TrimEnd(s) != [] ==> !IsSpace(TrimEnd(s)[|TrimEnd(s)| - 1])
    ensures forall i :: |TrimEnd(s)| <= i < |s| ==> IsSpace(s[i])
  {
    if s != [] && IsSpace(s[|s| - 1]) {
      TrimEndShape(s[..|s| - 1]);
    }
  }

  /** `str.strip()`. */
  function Strip(s: seq<char>): (r: seq<char>)
    ensures |r| <= |s|
    ensures r != [] ==> !IsSpace(r[0]) && !IsSpace(r[|r| - 1])
  {
    TrimStartShape(s);
    TrimEndShape(TrimStart(s));
    TrimEnd(TrimStart(s))
  }

  predicate IsBlank(s: seq<char>) {
    forall i :: 0 <= i < |s| ==> IsSpace(s[i])
  }

  lemma StripEmptyIffBlank(s: seq<char>)
    ensures Strip(s) == [] <==> IsBlank(s)
  {
    var t := TrimStart(s);
    TrimStartShape(s);
    TrimEndShape(t);
    if Strip(s) != [] {
      assert !IsSpace(t[0]) && t[0] == s[|s| - |t|];
    }
  }

  /** Characters of `s` that are decimal digits, in order (`re.sub(r"\D", "", s)`). */
  function Digits(s: seq<char>): (r: seq<char>)
    ensures |r| <= |s|
    ensures forall i :: 0 <= i < |r| ==> IsDigit(r[i])
  {
    if s == [] then []
    else if IsDigit(s[0]) then [s[0]] + Digits(s[1..])
    else Digits(s[1..])
  }

  /** Characters of `s` that are ASCII letters or digits (`re.sub(r"[^A-Za-z0-9]+", "", s)`). */
  function AlnumOnly(s: seq<char>): (r: seq<char>)
    ensures |r| <= |s|
    ensures forall i :: 0 <= i < |r| ==> IsAlnum(r[i])
  {
    if s == [] then []
    else if IsAlnum(s[0]) then [s[0]] + AlnumOnly(s[1..])
    else AlnumOnly(s[1..])
  }

  predicate AllDigits(s: seq<char>) {
    forall i :: 0 <= i < |s| ==> IsDigit(s[i])
  }

  /** `int(s)` for a string of decimal digits. */
  function DigitsValue(s: seq<char>): nat
    requires AllDigits(s)
  {
    if s == [] then 0
    else DigitsValue(s[..|s| - 1]) * 10 + (s[|s| - 1] as int - '0' as int)
  }

  /** `str(n)` for a non-negative integer. */
  function NatToString(n: nat): (r: seq<char>)
    ensures |r| >= 1 && AllDigits(r)
    ensures |r| > 1 ==> r[0] != '0'
    ensures n < 10 <==> |r| == 1
    ensures 10 <= n < 100 <==> |r| == 2
  {
    if n < 10 then [('0' as int + n) as char]
    else NatToString(n / 10) + [('0' as int + n % 10) as char]
  }

  lemma {:induction false} NatToStringValue(n: nat)
    ensures DigitsValue(NatToString(n)) == n
  {
    var r := NatToString(n);
    if n >= 10 {
      NatToStringValue(n / 10);
      assert r[..|r| - 1] == NatToString(n / 10);
    }
  }

  /** `str(n)` for any integer. */
  function IntToString(n: int): (r: seq<char>)
    ensures r != [] && !IsSpace(r[0]) && !IsSpace(r[|r| - 1])
  {
    if n < 0 then "-" + NatToString(-n) else NatToString(n)
  }

  /**
   * `int(s)` on text: blank padding, an optional sign, decimal digits;
   * `None` where Python raises ValueError.
   */
  function ParseInt(s: seq<char>): (r: Option<int>)
  {
    var t := Strip(s);
    if |t| > 1 && (t[0] == '-' || t[0] == '+') && AllDigits(t[1..]) then
      Some(if t[0] == '-' then -(DigitsValue(t[1..]) as int) else DigitsValue(t[1..]))
    else if t != [] && AllDigits(t) then Some(DigitsValue(t))
    else None
  }

  /** `int(str(n)) == n`. */
  lemma ParseIntOfIntToString(n: int)
    ensures ParseInt(IntToString(n)) == Some(n)
  {
    var r := IntToString(n);
    StripUnpadded(r);
    if n < 0 {
      assert r[1..] == NatToString(-n);
      NatToStringValue(-n);
    } else {
      assert IsDigit(r[0]);
      NatToStringValue(n);
    }
  }

  /** Maximal prefix of `s` with no separator character. */
  function WordLen(s: seq<char>, sep: char -> bool): (n: nat)
    ensures n <= |s|
    ensures forall i :: 0 <= i < n ==> !sep(s[i])
    ensures n < |s| ==> sep(s[n])
  {
    if s == [] || sep(s[0]) then 0 else 1 + WordLen(s[1..], sep)
  }

  /**
   * The maximal runs of non-separator characters, in order; this is
   * `str.split()` when `sep` is whitespace and `re.split` over a class of
   * separators followed by dropping empty pieces otherwise.
   */
  function Tokens(s: seq<char>, sep: char -> bool): (ts: seq<seq<char>>)
    decreases |s|
  {
    if s == [] then []
    else if sep(s[0]) then Tokens(s[1..], sep)
    else
      var n := WordLen(s, sep);
      [s[..n]] + Tokens(s[n..], sep)
  }

  /** Every token is non-empty and free of separators. */
  predicate WellFormedTokens(ts: seq<seq<char>>, sep: char -> bool) {
    forall k :: 0 <= k < |ts| ==> ts[k] != [] && forall i :: 0 <= i < |ts[k]| ==> !sep(ts[k][i])
  }

  lemma {:induction false} TokensWellFormed(s: seq<char>, sep: char -> bool)
    ensures WellFormedTokens(Tokens(s, sep), sep)
    decreases |s|
  {
    if s == [] {
    } else if sep(s[0]) {
      TokensWellFormed(s[1..], sep);
    } else {
      var n := WordLen(s, sep);
      TokensWellFormed(s[n..], sep);
    }
  }

  lemma {:induction false} TokensEmptyIff(s: seq<char>, sep: char -> bool)
    ensures Tokens(s, sep) == [] <==> forall i :: 0 <= i < |s| ==> sep(s[i])
    decreases |s|
  {
    if s != [] && sep(s[0]) {
      TokensEmptyIff(s[1..], sep);
      assert forall i :: 1 <= i < |s| ==> s[i] == s[1..][i - 1];
    }
  }

  lemma WordLenOfConcat(a: seq<char>, b: seq<char>, sep: char -> bool)
    requires WordLen(a, sep) < |a|
    ensures WordLen(a + b, sep) == WordLen(a, sep)
    decreases |a|
  {
    if !sep(a[0]) {
      assert (a + b)[1..] == a[1..] + b;
      WordLenOfConcat(a[1..], b, sep);
    }
  }

  /** Text ending in a separator tokenises independently of what follows it. */
  lemma {:induction false} TokensOfConcat(a: seq<char>, b: seq<char>, sep: char -> bool)
    requires a == [] || sep(a[|a| - 1])
    ensures Tokens(a + b, sep) == Tokens(a, sep) + Tokens(b, sep)
    decreases |a|
  {
    if a == [] {
      assert a + b == b;
    } else if sep(a[0]) {
      assert (a + b)[1..] == a[1..] + b;
      TokensOfConcat(a[1..], b, sep);
    } else {
      var n := WordLen(a, sep);
      WordLenOfConcat(a, b, sep);
      assert (a + b)[..n] == a[..n];
      assert (a + b)[n..] == a[n..] + b;
      TokensOfConcat(a[n..], b, sep);
    }
  }

  /** A property held by every character of `s` is held by every character of its tokens. */
  lemma {:induction false} TokensKeep(s: seq<char>, sep: char -> bool, P: char -> bool)
    requires forall i :: 0 <= i < |s| ==> P(s[i])
    ensures forall k, i :: 0 <= k < |Tokens(s, sep)| && 0 <= i < |Tokens(s, sep)[k]| ==> P(Tokens(s, sep)[k][i])
    decreases |s|
  {
    if s == [] {
    } else if sep(s[0]) {
      TokensKeep(s[1..], sep, P);
    } else {
      var n := WordLen(s, sep);
      TokensKeep(s[n..], sep, P);
      var ts := Tokens(s, sep);
      forall k, i | 0 <= k < |ts| && 0 <= i < |ts[k]| ensures P(ts[k][i]) {
        if k == 0 {
          assert ts[0][i] == s[i];
        } else {
          assert ts[k] == Tokens(s[n..], sep)[k - 1];
        }
      }
    }
  }

  /** Joins the parts with `glue` between consecutive parts (`glue.join(parts)`). */
  function Join(parts: seq<seq<char>>, glue: seq<char>): seq<char> {
    if parts == [] then []
    else if |parts| == 1 then parts[0]
    else parts[0] + glue + Join(parts[1..], glue)
  }

  lemma WordLenOfPrefix(w: seq<char>, rest: seq<char>, sep: char -> bool)
    requires forall i :: 0 <= i < |w| ==> !sep(w[i])
    requires rest == [] || sep(rest[0])
    ensures WordLen(w + rest, sep) == |w|
    decreases |w|
  {
    if w != [] {
      assert (w + rest)[1..] == w[1..] + rest;
      WordLenOfPrefix(w[1..], rest, sep);
    }
  }

  /** A word with no separator is its own single token. */
  lemma TokensOfWord(w: seq<char>, sep: char -> bool)
    requires w != [] && forall i :: 0 <= i < |w| ==> !sep(w[i])
    ensures Tokens(w, sep) == [w]
  {
    WordLenOfPrefix(w, [], sep);
    assert w + [] == w;
    assert w[|w|..] == [];
  }

  /** Tokenising a join on a separator character gives back the parts. */
  lemma {:induction false} TokensOfJoin(ts: seq<seq<char>>, c: char, sep: char -> bool)
    requires sep(c)
    requires WellFormedTokens(ts, sep)
    ensures Tokens(Join(ts, [c]), sep) == ts
    decreases |ts|
  {
    if |ts| == 1 {
      TokensOfWord(ts[0], sep);
    } else if |ts| > 1 {
      var w := ts[0];
      var j := Join(ts[1..], [c]);
      var s := w + [c] + j;
      var rest := [c] + j;
      assert s == w + rest;
      WordLenOfPrefix(w, rest, sep);
      assert s[..|w|] == w && s[|w|..] == rest;
      assert Tokens(s, sep) == [w] + Tokens(rest, sep);
      assert rest[1..] == j;
      TokensOfJoin(ts[1..], c, sep);
      assert ts == [w] + ts[1..];
    }
  }

  /** A property held by the glue and every character of the parts is held by the join. */
  lemma {:induction false} JoinKeeps(parts: seq<seq<char>>, glue: seq<char>, P: char -> bool)
    requires forall i :: 0 <= i < |glue| ==> P(glue[i])
    requires forall k, i :: 0 <= k < |parts| && 0 <= i < |parts[k]| ==> P(parts[k][i])
    ensures forall i :: 0 <= i < |Join(parts, glue)| ==> P(Join(parts, glue)[i])
    decreases |parts|
  {
    if |parts| > 1 {
      JoinKeeps(parts[1..], glue, P);
      var j := Join(parts[1..], glue);
      forall i | 0 <= i < |Join(parts, glue)| ensures P(Join(parts, glue)[i]) {
        if i < |parts[0]| {
        } else if i < |parts[0]| + |glue| {
          assert Join(parts, glue)[i] == glue[i - |parts[0]|];
        } else {
          assert Join(parts, glue)[i] == j[i - |parts[0]| - |glue|];
        }
      }
    }
  }

  predicate IsSorted(s: seq<int>) {
    forall i, j :: 0 <= i < j < |s| ==> s[i] < s[j]
  }

  ghost function MinOf(s: set<int>): (m: int)
    requires s != {}
    ensures m in s && forall x :: x in s ==> m <= x
    decreases |s|
  {
    var x := PickOf(s);
    if s == {x} then x
    else
      var m' := MinOf(s - {x});
      assert forall y :: y in s ==> y == x || y in s - {x};
      if m' < x then m' else x
  }

  ghost function PickOf(s: set<int>): (x: int)
    requires s != {}
    ensures x in s
  {
    NoMemberEmpty(s);
    var x :| x in s; x
  }

  /** Set extensionality in the direction the solver needs help with. */
  lemma NoMemberEmpty(s: set<int>)
    ensures (forall x :: x !in s) ==> s == {}
  {
    if forall x :: x !in s {
      assert s == {};
    }
  }
  lemma NoTextMemberEmpty(s: set<seq<char>>)
    ensures (forall x :: x !in s) ==> s == {}
  {
    if forall x :: x !in s {
      assert s == {};
    }
  }


  /** A duplicate-free sequence has as many elements as the set it lists. */
  lemma {:induction false} DistinctCount<T>(s: seq<T>, keys: set<T>)
    requires forall i, j :: 0 <= i < j < |s| ==> s[i] != s[j]
    requires forall x :: x in keys <==> x in s
    ensures |keys| == |s|
  {
    if s != [] {
      var x := s[|s| - 1];
      var pre := s[..|s| - 1];
      assert forall y :: y in keys - {x} <==> y in pre by {
        forall y ensures y in keys - {x} <==> y in pre {
          if y in pre {
            var i :| 0 <= i < |pre| && pre[i] == y;
            assert s[i] == y;
          }
          if y in s && y != x {
            var i :| 0 <= i < |s| && s[i] == y;
            assert i < |s| - 1;
            assert pre[i] == y;
          }
        }
      }
      DistinctCount(pre, keys - {x});
    } else {
      assert forall y :: y !in keys;
      assert keys == {};
    }
  }

  /** `sorted(s)` for a set of integers. */
  ghost function SortedElems(s: set<int>): (r: seq<int>)
    ensures IsSorted(r)
    ensures |r| == |s|
    ensures forall x :: x in r <==> x in s
    decreases |s|
  {
    if s == {} then []
    else
      var m := MinOf(s);
      [m] + SortedElems(s - {m})
  }

  /** The elements of a set in ascending order (`sorted(s)`), picking the least one each round. */
  method SortSet(s: set<int>) returns (r: seq<int>)
    ensures IsSorted(r)
    ensures |r| == |s|
    ensures forall x :: x in r <==> x in s
  {
    r := [];
    var rest := s;
    while rest != {}
      invariant IsSorted(r)
      invariant |r| + |rest| == |s|
      invariant forall x :: x in s <==> x in r || x in rest
      invariant forall i, y :: 0 <= i < |r| && y in rest ==> r[i] < y
      decreases |rest|
    {
      ghost var least := MinOf(rest);
      var m :| m in rest && forall y :: y in rest ==> m <= y;
      r := r + [m];
      rest := rest - {m};
    }
  }

  /** `x` put in its place in a strictly increasing sequence, unless it is there already. */
  function InsertSorted(x: int, s: seq<int>): (r: seq<int>)
    requires IsSorted(s)
    ensures IsSorted(r)
    ensures forall y :: y in r <==> y == x || y in s
  {
    if s == [] then [x]
    else if x < s[0] then [x] + s
    else if x == s[0] then s
    else
      var rest := InsertSorted(x, s[1..]);
      assert forall i :: 0 <= i < |rest| ==> rest[i] in rest;
      [s[0]] + rest
  }

  /** `sorted(set(s))`: the distinct elements of `s` in ascending order. */
  function SortedDistinct(s: seq<int>): (r: seq<int>)
    ensures IsSorted(r)
    ensures forall y :: y in r <==> y in s
  {
    if s == [] then [] else InsertSorted(s[|s| - 1], SortedDistinct(s[..|s| - 1]))
  }

  lemma HeadIsMember(s: seq<int>)
    ensures s != [] ==> s[0] in s
  {
  }

  /** The head of a strictly increasing sequence is its least element, and the tail holds the others. */
  lemma SortedHead(s: seq<int>)
    requires IsSorted(s) && s != []
    ensures forall y :: y in s ==> s[0] <= y
    ensures forall y :: y in s[1..] <==> y in s && y != s[0]
  {
    forall y | y in s ensures s[0] <= y {
      var j :| 0 <= j < |s| && s[j] == y;
      if j > 0 {
        assert s[0] < s[j];
      }
    }
    forall y ensures y in s[1..] <==> y in s && y != s[0] {
      if y in s[1..] {
        var j :| 0 <= j < |s| - 1 && s[1..][j] == y;
        assert s[j + 1] == y && s[0] < s[j + 1];
      }
      if y in s && y != s[0] {
        var j :| 0 <= j < |s| && s[j] == y;
        assert s[1..][j - 1] == y;
      }
    }
  }

  /** A set has one strictly increasing listing. */
  lemma {:induction false} SortedUnique(a: seq<int>, b: seq<int>)
    requires IsSorted(a) && IsSorted(b)
    requires forall y :: y in a <==> y in b
    ensures a == b
  {
    if a == [] || b == [] {
      HeadIsMember(a);
      HeadIsMember(b);
    } else {
      SortedHead(a);
      SortedHead(b);
      HeadIsMember(a);
      HeadIsMember(b);
      assert a[0] == b[0];
      assert IsSorted(a[1..]) && IsSorted(b[1..]);
      SortedUnique(a[1..], b[1..]);
      assert a == [a[0]] + a[1..] && b == [b[0]] + b[1..];
    }
  }

  /** `p` occurs in `s` at position `i`. */
  predicate OccursAt(p: seq<char>, s: seq<char>, i: int) {
    0 <= i <= |s| - |p| && s[i..i + |p|] == p
  }

  /** `p in s` for text: `p` occurs in `s` at some position. */
  predicate IsInfix(p: seq<char>, s: seq<char>) {
    exists i :: 0 <= i <= |s| - |p| && OccursAt(p, s, i)
  }

  /**
   * NFD decomposition followed by dropping the combining marks, for the
   * accented letters of Spanish; every other character is unchanged.
   */
  function FoldMark(c: char): char {
    match c
    case 'á' => 'a' case 'é' => 'e' case 'í' => 'i' case 'ó' => 'o' case 'ú' => 'u' case 'ü' => 'u' case 'ñ' => 'n'
    case 'Á' => 'A' case 'É' => 'E' case 'Í' => 'I' case 'Ó' => 'O' case 'Ú' => 'U' case 'Ü' => 'U' case 'Ñ' => 'N'
    case _ => c
  }

  /** Accent folding of a whole text; ASCII text is unchanged. */
  function FoldMarks(s: seq<char>): (r: seq<char>)
    ensures |r| == |s| && forall i :: 0 <= i < |s| ==> r[i] == FoldMark(s[i])
  {
    seq(|s|, i requires 0 <= i < |s| => FoldMark(s[i]))
  }

  /** ASCII letters and digits carry no mark to fold. */
  lemma FoldMarksOfAlnum(s: seq<char>)
    requires forall i :: 0 <= i < |s| ==> IsAlnum(s[i])
    ensures FoldMarks(s) == s
  {
    forall i | 0 <= i < |s|
      ensures FoldMark(s[i]) == s[i]
    {
      AlnumUnmarked(s[i]);
    }
  }

  lemma AlnumUnmarked(c: char)
    requires IsAlnum(c)
    ensures FoldMark(c) == c
  {
  }

  /** Folding keeps whitespace whitespace and everything else not whitespace, and folds nothing twice. */
  lemma FoldMarkKeeps(c: char)
    ensures IsSpace(FoldMark(c)) <==> IsSpace(c)
    ensures FoldMark(FoldMark(c)) == FoldMark(c)
  {
  }

  /** Folding folded text changes nothing. */
  lemma FoldMarksIdempotent(s: seq<char>)
    ensures FoldMarks(FoldMarks(s)) == FoldMarks(s)
  {
    forall i | 0 <= i < |s|
      ensures FoldMark(FoldMark(s[i])) == FoldMark(s[i])
    {
      FoldMarkKeeps(s[i]);
    }
  }

  /** Blank text stays blank once folded. */
  lemma FoldMarksBlank(s: seq<char>)
    ensures IsBlank(FoldMarks(s)) <==> IsBlank(s)
  {
    forall i | 0 <= i < |s|
      ensures IsSpace(FoldMarks(s)[i]) <==> IsSpace(s[i])
    {
      FoldMarkKeeps(s[i]);
    }
  }

  /** Folding and stripping commute: folding moves no whitespace. */
  lemma StripFoldMarks(s: seq<char>)
    ensures Strip(FoldMarks(s)) == FoldMarks(Strip(s))
  {
    StripEmptyIffBlank(s);
    FoldMarksBlank(s);
    StripEmptyIffBlank(FoldMarks(s));
    if !IsBlank(s) {
      var r := Strip(s);
      var a, b := StripSlice(s);
      FoldMarksSplit(s, a, b);
      FoldMarksBlank(s[..a]);
      FoldMarksBlank(s[b..]);
      FoldMarkKeeps(r[0]);
      FoldMarkKeeps(r[|r| - 1]);
      StripPadded(FoldMarks(s[..a]), FoldMarks(r), FoldMarks(s[b..]));
    }
  }

  /** `str.strip()` keeps a slice and drops the blank text around it. */
  lemma StripSlice(s: seq<char>) returns (a: nat, b: nat)
    ensures a <= b <= |s| && Strip(s) == s[a..b] && IsBlank(s[..a]) && IsBlank(s[b..])
  {
    var t := TrimStart(s);
    TrimStartShape(s);
    TrimEndShape(t);
    a := |s| - |t|;
    b := a + |Strip(s)|;
    assert IsBlank(s[b..]) by {
      forall i | 0 <= i < |s| - b
        ensures IsSpace(s[b..][i])
      {
        assert s[b..][i] == t[|Strip(s)| + i];
      }
    }
  }

  lemma FoldMarksSplit(s: seq<char>, a: nat, b: nat)
    requires a <= b <= |s|
    ensures FoldMarks(s) == FoldMarks(s[..a]) + FoldMarks(s[a..b]) + FoldMarks(s[b..])
  {
  }

  /** Every element of `sub` is an element of `s`, and in the same relative order. */
  predicate IsSubsequence<T(==)>(sub: seq<T>, s: seq<T>) {
    if sub == [] then true
    else if s == [] then false
    else if sub[0] == s[0] then IsSubsequence(sub[1..], s[1..])
    else IsSubsequence(sub, s[1..])
  }

  lemma {:induction false} SubsequenceOfTail<T>(sub: seq<T>, s: seq<T>)
    requires s != [] && IsSubsequence(sub, s[1..])
    ensures IsSubsequence(sub, s)
    decreases |s|, 0
  {
    if sub != [] && sub[0] == s[0] {
      SubsequenceDropHead(sub, s[1..]);
    }
  }

  lemma {:induction false} SubsequenceDropHead<T>(a: seq<T>, s: seq<T>)
    requires a != [] && IsSubsequence(a, s)
    ensures IsSubsequence(a[1..], s)
    decreases |s|, 1
  {
    if a[0] == s[0] {
      SubsequenceOfTail(a[1..], s);
    } else {
      SubsequenceDropHead(a, s[1..]);
      SubsequenceOfTail(a[1..], s);
    }
  }

  /** Strip leaves text alone that neither starts nor ends with whitespace. */
  lemma StripUnpadded(w: seq<char>)
    requires w != [] ==> !IsSpace(w[0]) && !IsSpace(w[|w| - 1])
    ensures Strip(w) == w
  {
  }

  /** Strip removes exactly the blank padding around unpadded text. */
  lemma {:induction false} StripPadded(pre: seq<char>, w: seq<char>, post: seq<char>)
    requires IsBlank(pre) && IsBlank(post)
    requires w != [] && !IsSpace(w[0]) && !IsSpace(w[|w| - 1])
    ensures Strip(pre + w + post) == w
  {
    TrimStartBlank(pre, w + post);
    assert pre + w + post == pre + (w + post);
    TrimEndBlank(w, post);
  }

  lemma {:induction false} TrimStartBlank(pre: seq<char>, rest: seq<char>)
    requires IsBlank(pre) && rest != [] && !IsSpace(rest[0])
    ensures TrimStart(pre + rest) == rest
    decreases |pre|
  {
    if pre == [] {
      assert pre + rest == rest;
    } else {
      assert (pre + rest)[1..] == pre[1..] + rest;
      TrimStartBlank(pre[1..], rest);
    }
  }

  lemma {:induction false} TrimEndBlank(w: seq<char>, post: seq<char>)
    requires IsBlank(post) && w != [] && !IsSpace(w[|w| - 1])
    ensures TrimEnd(w + post) == w
    decreases |post|
  {
    if post == [] {
      assert w + post == w;
    } else {
      assert (w + post)[..|w + post| - 1] == w + post[..|post| - 1];
      TrimEndBlank(w, post[..|post| - 1]);
    }
  }

  lemma {:induction false} DigitsOfConcat(a: seq<char>, b: seq<char>)
    ensures Digits(a + b) == Digits(a) + Digits(b)
    decreases |a|
  {
    if a == [] {
      assert a + b == b;
    } else {
      assert (a + b)[1..] == a[1..] + b;
      DigitsOfConcat(a[1..], b);
    }
  }

  lemma {:induction false} DigitsOfDigits(d: seq<char>)
    requires AllDigits(d)
    ensures Digits(d) == d
    decreases |d|
  {
    if d != [] {
      DigitsOfDigits(d[1..]);
    }
  }

  lemma {:induction false} DigitsOfNonDigits(s: seq<char>)
    requires forall i :: 0 <= i < |s| ==> !IsDigit(s[i])
    ensures Digits(s) == []
    decreases |s|
  {
    if s != [] {
      DigitsOfNonDigits(s[1..]);
    }
  }

  /** `str(int(d))` gives back a one- or two-digit string without a leading zero. */
  lemma DigitsValueRoundTrip(d: seq<char>)
    requires AllDigits(d) && 1 <= |d| <= 2
    requires |d| == 2 ==> d[0] != '0'
    ensures NatToString(DigitsValue(d)) == d
  {
    var v := DigitsValue(d);
    if |d| == 1 {
      assert d[..|d| - 1] == [];
      assert v == d[0] as int - '0' as int;
      assert d == [d[0]];
    } else {
      var a := d[0] as int - '0' as int;
      var b := d[1] as int - '0' as int;
      var p := d[..|d| - 1];
      assert p == [d[0]] && p[..|p| - 1] == [];
      assert v == a * 10 + b;
      assert v / 10 == a && v % 10 == b;
      assert NatToString(a) == [d[0]];
      assert d == [d[0]] + [d[1]];
    }
  }

  /** The values present in a sequence of options, in order. */
  function Somes<T>(os: seq<Option<T>>): (r: seq<T>)
    ensures |r| <= |os|
  {
    if os == [] then []
    else Somes(os[..|os| - 1]) + (if os[|os| - 1].Some? then [os[|os| - 1].value] else [])
  }

  lemma {:induction false} SomesMeaning<T>(os: seq<Option<T>>)
    ensures forall x :: x in Somes(os) <==> Some(x) in os
  {
    if os != [] {
      var init := os[..|os| - 1];
      SomesMeaning(init);
      assert os == init + [os[|os| - 1]];
    }
  }
}
