/** The star-rating display: each of `max` stars is full, half or empty. */
module Stars {
  import opened Seqs

  datatype Fill = Full | Half | Empty

  /** The `max` property's default. */
  const DefaultMax := 5

  /** Star `i`'s class: full below `Math.floor(value)`, half below `value`,
      empty from there on. */
  function StarFill(i: nat, value: real): Fill {
    if i < value.Floor then Full
    else if (i as real) < value then Half
    else Empty
  }

  /** The row of stars: one per position `0 .. max-1`. */
  function Row(value: real, max: nat): (r: seq<Fill>)
    ensures |r| == max
    ensures forall i :: 0 <= i < max ==> r[i] == StarFill(i, value)
  {
    seq(max, i requires 0 <= i < max => StarFill(i, value))
  }

  /** A star is half exactly at the position `Math.floor(value)`, and only when
      `value` is not a whole number. */
  lemma HalfStarIsUnique(value: real, max: nat, i: nat)
    requires i < max && Row(value, max)[i] == Half
    ensures i == value.Floor
    ensures (value.Floor as real) != value
    ensures forall j :: 0 <= j < max && Row(value, max)[j] == Half ==> j == i
  {
  }

  /** Full stars come first, then at most one half star, then empty stars. */
  lemma RowIsOrdered(value: real, max: nat, i: nat, j: nat)
    requires i < j < max
    ensures Row(value, max)[j] == Full ==> Row(value, max)[i] == Full
    ensures Row(value, max)[i] == Empty ==> Row(value, max)[j] == Empty
    ensures Row(value, max)[i] == Half ==> Row(value, max)[j] == Empty
  {
  }

  function IsFull(f: Fill): bool { f == Full }
  function IsHalf(f: Fill): bool { f == Half }

  /** A whole rating `v` between 0 and `max` shows exactly `v` full stars and no half star. */
  lemma WholeRatingShowsThatManyStars(v: nat, max: nat)
    requires v <= max
    ensures Count(Row(v as real, max), IsFull) == v
    ensures Count(Row(v as real, max), IsHalf) == 0
  {
    var r := Row(v as real, max);
    forall i | 0 <= i < max ensures (r[i] == Full <==> i < v) && r[i] != Half {
      assert r[i] == StarFill(i, v as real);
    }
    CountPrefixFull(r, v);
    CountNoHalf(r);
  }

  /** Exactly the first `k` entries full gives a count of `k`. */
  lemma {:induction false} CountPrefixFull(r: seq<Fill>, k: nat)
    requires k <= |r|
    requires forall i :: 0 <= i < |r| ==> (r[i] == Full <==> i < k)
    ensures Count(r, IsFull) == k
  {
    if |r| > 0 {
      if k > 0 {
        CountPrefixFull(r[1..], k - 1);
      } else {
        CountPrefixFull(r[1..], 0);
      }
    }
  }

  lemma {:induction false} CountNoHalf(r: seq<Fill>)
    requires forall i :: 0 <= i < |r| ==> r[i] != Half
    ensures Count(r, IsHalf) == 0
  {
    if |r| > 0 {
      CountNoHalf(r[1..]);
    }
  }

  /** A rating of a whole number and a half, below `max`: that many full stars,
      the next one half, and no other half star (3.5 of 5 is three full, one
      half and one empty). */
  lemma HalfRatingShowsOneHalfStar(v: nat, max: nat)
    requires v < max
    ensures Row(v as real + 0.5, max)[v] == Half
    ensures Count(Row(v as real + 0.5, max), IsFull) == v
    ensures Count(Row(v as real + 0.5, max), IsHalf) == 1
  {
    var x := v as real + 0.5;
    assert x.Floor == v;
    var r := Row(x, max);
    forall i | 0 <= i < max ensures (r[i] == Full <==> i < v) && (r[i] == Half <==> i == v) {
      assert r[i] == StarFill(i, x);
    }
    CountPrefixFull(r, v);
    CountOneHalf(r, v);
  }

  /** Exactly the entry at `k` half gives a count of one. */
  lemma {:induction false} CountOneHalf(r: seq<Fill>, k: nat)
    requires k < |r|
    requires forall i :: 0 <= i < |r| ==> (r[i] == Half <==> i == k)
    ensures Count(r, IsHalf) == 1
  {
    if k > 0 {
      CountOneHalf(r[1..], k - 1);
    } else {
      CountNoHalf(r[1..]);
    }
  }
}
