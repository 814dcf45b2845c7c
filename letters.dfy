/**
 * The group-letter scan that three parsers share: `_parse_grupo_letras`
 * (santillana_format/cli.py), `_normalize_grupos`
 * (santillana_format/processor.py) and `_parse_sections`
 * (santillana_format/richmond_groups.py). Each token is stripped and
 * upper-cased; an empty one is skipped, a single letter is kept once, in
 * first-seen order, and anything else is reported as written.
 */
module Letters {
  import opened Text

  /** The letters kept and the tokens reported so far. */
  datatype Scan = Scan(letters: seq<char>, invalid: seq<seq<char>>)

  /** A token as the parsers compare it: `token.strip().upper()`. */
  function Clean(t: seq<char>): seq<char> {
    Upper(Strip(t))
  }

  /** `len(upper) == 1 and upper.isalpha()`. */
  predicate IsLetter(u: seq<char>) {
    |u| == 1 && IsAlpha(u[0])
  }

  /** Token `t` names the group letter `c`. */
  predicate Names(t: seq<char>, c: char) {
    IsLetter(Clean(t)) && Clean(t)[0] == c
  }

  /** Token `t` is reported: it is neither blank nor a single letter. */
  predicate Invalid(t: seq<char>) {
    Clean(t) != [] && !IsLetter(Clean(t))
  }

  /** The scan after one more token. */
  function Step(s: Scan, t: seq<char>): Scan {
    var u := Clean(t);
    if u == [] then s
    else if IsLetter(u) then
      if u[0] in s.letters then s else Scan(s.letters + [u[0]], s.invalid)
    else Scan(s.letters, s.invalid + [t])
  }

  /** The scan of a whole token sequence, from nothing. */
  function ScanAll(ts: seq<seq<char>>): Scan {
    if ts == [] then Scan([], []) else Step(ScanAll(ts[..|ts| - 1]), ts[|ts| - 1])
  }

  /** The scanning loop the three parsers share. */
  method ScanTokens(ts: seq<seq<char>>) returns (letters: seq<char>, invalid: seq<seq<char>>)
    ensures Scan(letters, invalid) == ScanAll(ts)
  {
    letters, invalid := [], [];
    for k := 0 to |ts|
      invariant Scan(letters, invalid) == ScanAll(ts[..k])
    {
      assert ts[..k + 1][..k] == ts[..k];
      var upper := Upper(Strip(ts[k]));
      if upper == [] {
        continue;
      }
      if |upper| == 1 && IsAlpha(upper[0]) {
        if upper[0] !in letters {
          letters := letters + [upper[0]];
        }
      } else {
        invalid := invalid + [ts[k]];
      }
    }
    assert ts[..|ts|] == ts;
  }

  /** A letter a token names is upper-case. */
  lemma NamedIsUpper(t: seq<char>, c: char)
    requires Names(t, c)
    ensures IsUpper(c)
  {
    assert Clean(t)[0] == UpperChar(Strip(t)[0]);
  }

  /** The letters kept are upper-case and pairwise distinct. */
  lemma {:induction false} ScanLettersDistinct(ts: seq<seq<char>>)
    ensures forall i :: 0 <= i < |ScanAll(ts).letters| ==> IsUpper(ScanAll(ts).letters[i])
    ensures forall i, j :: 0 <= i < j < |ScanAll(ts).letters| ==> ScanAll(ts).letters[i] != ScanAll(ts).letters[j]
  {
    if ts != [] {
      var t := ts[|ts| - 1];
      ScanLettersDistinct(ts[..|ts| - 1]);
      if IsLetter(Clean(t)) {
        NamedIsUpper(t, Clean(t)[0]);
      }
    }
  }

  /** One more token adds at most the letter it names. */
  lemma StepLetters(s: Scan, t: seq<char>, c: char)
    ensures c in Step(s, t).letters <==> c in s.letters || Names(t, c)
  {
  }

  /** The letters kept are exactly the letters some token names. */
  lemma {:induction false} ScanLettersNamed(ts: seq<seq<char>>)
    ensures forall c :: c in ScanAll(ts).letters <==> exists t :: t in ts && Names(t, c)
  {
    if ts != [] {
      var init, t := ts[..|ts| - 1], ts[|ts| - 1];
      assert ts == init + [t];
      ScanLettersNamed(init);
      forall c
        ensures c in ScanAll(ts).letters <==> exists u :: u in ts && Names(u, c)
      {
        StepLetters(ScanAll(init), t, c);
        if exists u :: u in ts && Names(u, c) {
          var u :| u in ts && Names(u, c);
          assert u == t || u in init;
        }
      }
    }
  }

  /**
   * The letters kept are upper-case and pairwise distinct, and they are
   * exactly the letters some token names.
   */
  lemma ScanLetters(ts: seq<seq<char>>)
    ensures forall i :: 0 <= i < |ScanAll(ts).letters| ==> IsUpper(ScanAll(ts).letters[i])
    ensures forall i, j :: 0 <= i < j < |ScanAll(ts).letters| ==> ScanAll(ts).letters[i] != ScanAll(ts).letters[j]
    ensures forall c :: c in ScanAll(ts).letters <==> exists t :: t in ts && Names(t, c)
  {
    ScanLettersDistinct(ts);
    ScanLettersNamed(ts);
  }

  /** The tokens reported are exactly the tokens that are neither blank nor a single letter. */
  lemma {:induction false} ScanInvalid(ts: seq<seq<char>>)
    ensures forall t :: t in ScanAll(ts).invalid <==> t in ts && Invalid(t)
  {
    if ts != [] {
      var init, t := ts[..|ts| - 1], ts[|ts| - 1];
      assert ts == init + [t];
      ScanInvalid(init);
    }
  }

  /**
   * First-seen order: the letters kept from the first `k` tokens are a
   * prefix of the letters kept from all of them.
   */
  lemma {:induction false} ScanFirstSeen(ts: seq<seq<char>>, k: nat)
    requires k <= |ts|
    ensures ScanAll(ts[..k]).letters <= ScanAll(ts).letters
    decreases |ts| - k
  {
    if k < |ts| {
      ScanFirstSeen(ts, k + 1);
      assert ts[..k + 1][..k] == ts[..k];
    } else {
      assert ts[..k] == ts;
    }
  }

  /** Nothing is kept and nothing reported iff every token is blank. */
  lemma ScanEmptyIff(ts: seq<seq<char>>)
    ensures ScanAll(ts) == Scan([], []) <==> forall t :: t in ts ==> Clean(t) == []
  {
    ScanLetters(ts);
    ScanInvalid(ts);
    if forall t :: t in ts ==> Clean(t) == [] {
      HeadIn(ScanAll(ts).letters);
      HeadIn(ScanAll(ts).invalid);
    } else {
      var t :| t in ts && Clean(t) != [];
      if IsLetter(Clean(t)) {
        assert Names(t, Clean(t)[0]);
      } else {
        assert Invalid(t);
      }
    }
  }

  lemma HeadIn<T>(s: seq<T>)
    ensures s != [] ==> s[0] in s
  {
  }
}
