/** Where the parts of a concatenation land, stated for any element type so that the facts can
    be used without unfolding what the elements are. */
module Seqs {
  /** Element `k` of `before + [middle] + after`, by the part it falls in. */
  lemma {:induction false} PlacementAt<T>(before: seq<T>, middle: T, after: seq<T>, k: nat)
    requires k < |before| + 1 + |after|
    ensures var s := before + [middle] + after;
      && |s| == |before| + 1 + |after|
      && s[k] == (if k < |before| then before[k] else if k == |before| then middle else after[k - |before| - 1])
  {
  }

  /** When neither side holds `middle`, it occurs in `before + [middle] + after` only between them. */
  lemma {:induction false} OnlyBetween<T>(before: seq<T>, middle: T, after: seq<T>)
    requires forall k :: 0 <= k < |before| ==> before[k] != middle
    requires forall j :: 0 <= j < |after| ==> after[j] != middle
    ensures var s := before + [middle] + after;
            forall k :: 0 <= k < |s| ==> (s[k] == middle <==> k == |before|)
  {
    var s := before + [middle] + after;
    forall k | 0 <= k < |s| ensures s[k] == middle <==> k == |before| {
      PlacementAt(before, middle, after, k);
    }
  }

  /** Element `k` of `[first] + middle + [last]`, by the part it falls in. */
  lemma {:induction false} BracketedAt<T>(first: T, middle: seq<T>, last: T, k: nat)
    requires k < |middle| + 2
    ensures var s := [first] + middle + [last];
      && |s| == |middle| + 2
      && s[k] == (if k == 0 then first else if k <= |middle| then middle[k - 1] else last)
  {
  }

  /** The first k + 1 elements are the first k followed by element k. */
  lemma {:induction false} TakeSnoc<T>(s: seq<T>, k: nat)
    requires k < |s|
    ensures s[..k + 1] == s[..k] + [s[k]]
  {
  }

  /** Taking all the elements gives the sequence back. */
  lemma {:induction false} TakeAll<T>(s: seq<T>)
    ensures s[..|s|] == s
  {
  }

  /** A prefix of a prefix is the shorter prefix. */
  lemma {:induction false} TakeTake<T>(s: seq<T>, i: nat, j: nat)
    requires i <= j <= |s|
    ensures s[..j][..i] == s[..i]
  {
  }

  /** Dropping a one-element head leaves the rest. */
  lemma {:induction false} DropHead<T>(head: seq<T>, rest: seq<T>)
    requires |head| == 1
    ensures (head + rest)[1..] == rest
  {
  }
}
