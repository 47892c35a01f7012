/** Plain splitting and joining of text on a single delimiter character:
    the reference against which the quote-aware scanner is compared on
    text that holds no quote characters. */
module Text {

  /** Index of the first d at or after i, or |s| when there is none. */
  function FirstDelimiter(s: string, i: nat, d: char): (k: nat)
    requires i <= |s|
    decreases |s| - i
    ensures i <= k <= |s|
    ensures k < |s| ==> s[k] == d
    ensures forall j :: i <= j < k ==> s[j] != d
  {
    if i == |s| || s[i] == d then i else FirstDelimiter(s, i + 1, d)
  }

  /** The pieces of s[i..] between successive occurrences of d; there is
      always at least one piece (the empty text gives [""]). */
  function SplitFrom(s: string, i: nat, d: char): (pieces: seq<string>)
    requires i <= |s|
    decreases |s| - i
    ensures |pieces| >= 1
  {
    var k := FirstDelimiter(s, i, d);
    if k == |s| then [s[i..]] else [s[i..k]] + SplitFrom(s, k + 1, d)
  }

  function Split(s: string, d: char): seq<string>
  {
    SplitFrom(s, 0, d)
  }

  /** The pieces concatenated with one d between neighbours. */
  function Join(pieces: seq<string>, d: char): string
  {
    if |pieces| == 0 then ""
    else if |pieces| == 1 then pieces[0]
    else pieces[0] + [d] + Join(pieces[1..], d)
  }

  /** The list without its last element when that element is "". */
  function DropTrailingEmpty(pieces: seq<string>): seq<string>
  {
    if |pieces| > 0 && pieces[|pieces| - 1] == "" then pieces[..|pieces| - 1] else pieces
  }

  lemma AppendAssoc<T>(a: seq<T>, b: seq<T>, c: seq<T>)
    ensures a + (b + c) == (a + b) + c
  {
  }

  lemma JoinCons(p: string, rest: seq<string>, d: char)
    requires |rest| >= 1
    ensures Join([p] + rest, d) == p + [d] + Join(rest, d)
  {
    assert ([p] + rest)[1..] == rest;
  }

  lemma DropTrailingEmptyCons(p: string, rest: seq<string>)
    requires |rest| >= 1
    ensures DropTrailingEmpty([p] + rest) == [p] + DropTrailingEmpty(rest)
  {
    if rest[|rest| - 1] == "" {
      assert ([p] + rest)[..|rest|] == [p] + rest[..|rest| - 1];
    }
  }

  /** One unfolding of SplitFrom at the first delimiter. */
  lemma SplitFromStep(s: string, i: nat, d: char, k: nat)
    requires i <= |s| && k == FirstDelimiter(s, i, d)
    ensures k < |s| ==> SplitFrom(s, i, d) == [s[i..k]] + SplitFrom(s, k + 1, d)
    ensures k == |s| ==> SplitFrom(s, i, d) == [s[i..]]
  {
  }

  /** Cutting a text around one position and gluing it back. */
  lemma SliceAround<T>(s: seq<T>, i: nat, k: nat)
    requires i <= k < |s|
    ensures s[i..] == s[i..k] + [s[k]] + s[k + 1..]
  {
  }

  lemma {:induction false} JoinSplitFrom(s: string, i: nat, d: char)
    requires i <= |s|
    ensures Join(SplitFrom(s, i, d), d) == s[i..]
    decreases |s| - i
  {
    var k := FirstDelimiter(s, i, d);
    SplitFromStep(s, i, d, k);
    if k < |s| {
      var rest := SplitFrom(s, k + 1, d);
      calc {
        Join(SplitFrom(s, i, d), d);
        Join([s[i..k]] + rest, d);
        { JoinCons(s[i..k], rest, d); }
        s[i..k] + [d] + Join(rest, d);
        { JoinSplitFrom(s, k + 1, d); }
        s[i..k] + [d] + s[k + 1..];
        { SliceAround(s, i, k); }
        s[i..];
      }
    } else {
      assert Join([s[i..]], d) == s[i..];
    }
  }

  /** Joining the pieces of a split restores the text. */
  lemma JoinSplit(s: string, d: char)
    ensures Join(Split(s, d), d) == s
  {
    JoinSplitFrom(s, 0, d);
  }

  lemma {:induction false} SplitFromPiecesFree(s: string, i: nat, d: char)
    requires i <= |s|
    ensures forall p :: p in SplitFrom(s, i, d) ==> d !in p
    decreases |s| - i
  {
    var k := FirstDelimiter(s, i, d);
    assert d !in s[i..k];
    if k < |s| {
      SplitFromPiecesFree(s, k + 1, d);
    } else {
      assert s[i..] == s[i..k];
    }
  }

  /** No piece of a split holds the delimiter. */
  lemma SplitPiecesFree(s: string, d: char)
    ensures forall p :: p in Split(s, d) ==> d !in p
  {
    SplitFromPiecesFree(s, 0, d);
  }
}
