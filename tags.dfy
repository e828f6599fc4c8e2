/**
 * A business's scenario tags: a list with set semantics, kept in order of first
 * appearance (batch_ingest.py, `upsert_business`, the append at lines 151-153).
 */
module Tags {

  /** No tag occurs twice. */
  predicate NoDup(s: seq<string>) {
    forall i, j :: 0 <= i < j < |s| ==> s[i] != s[j]
  }

  /** Append `tag` to `tags` only when it is absent. */
  function AddTag(tags: seq<string>, tag: string): (r: seq<string>)
    ensures tag in r
    ensures forall t :: t in r <==> t in tags || t == tag
    ensures NoDup(tags) ==> NoDup(r)
    ensures tags <= r && |r| <= |tags| + 1
  {
    if tag in tags then tags else tags + [tag]
  }

  /** `AddTag` with each of `ts` in turn. */
  function AddTags(tags: seq<string>, ts: seq<string>): (r: seq<string>)
    decreases |ts|
  {
    if ts == [] then tags else AddTag(AddTags(tags, ts[..|ts| - 1]), ts[|ts| - 1])
  }

  /** The position of the first occurrence of `x` in `s`. */
  function FirstIndex(s: seq<string>, x: string): (k: nat)
    requires x in s
    ensures k < |s| && s[k] == x && x !in s[..k]
  {
    if s[0] == x then 0
    else
      var k := 1 + FirstIndex(s[1..], x);
      assert s[..k] == [s[0]] + s[1..][..k - 1];
      k
  }

  /** Elements of `r` stand in the order in which they first appear in `src`. */
  predicate InFirstAppearanceOrder(r: seq<string>, src: seq<string>) {
    forall i, j :: 0 <= i < j < |r| ==>
      r[i] in src && r[j] in src && FirstIndex(src, r[i]) < FirstIndex(src, r[j])
  }

  lemma {:induction false} FirstIndexExtend(s: seq<string>, t: seq<string>, x: string)
    requires x in s
    ensures FirstIndex(s + t, x) == FirstIndex(s, x)
  {
    assert (s + t)[0] == s[0];
    if s[0] != x {
      assert (s + t)[1..] == s[1..] + t;
      FirstIndexExtend(s[1..], t, x);
    }
  }

  lemma FirstIndexOfDistinct(s: seq<string>, i: nat)
    requires NoDup(s) && i < |s|
    ensures FirstIndex(s, s[i]) == i
  {
  }

  /** One more tag keeps the first-appearance order of a list that had it. */
  lemma AddTagKeepsOrder(r: seq<string>, src: seq<string>, t: string)
    requires forall x :: x in r <==> x in src
    requires InFirstAppearanceOrder(r, src)
    ensures InFirstAppearanceOrder(AddTag(r, t), src + [t])
  {
    var src1 := src + [t];
    forall x | x in src
      ensures FirstIndex(src1, x) == FirstIndex(src, x)
    {
      FirstIndexExtend(src, [t], x);
    }
    if t !in r {
      var r1 := r + [t];
      assert t !in src;
      assert FirstIndex(src1, t) == |src|;
      forall i, j | 0 <= i < j < |r1|
        ensures r1[i] in src1 && r1[j] in src1 && FirstIndex(src1, r1[i]) < FirstIndex(src1, r1[j])
      {
        assert r1[i] == r[i] && r[i] in r;
        if j < |r| {
          assert r1[j] == r[j] && r[j] in r;
        }
      }
    } else {
      forall i, j | 0 <= i < j < |r|
        ensures r[i] in src1 && r[j] in src1 && FirstIndex(src1, r[i]) < FirstIndex(src1, r[j])
      {
        assert r[i] in r && r[j] in r;
      }
    }
  }

  /** A duplicate-free list is in its own first-appearance order. */
  lemma DistinctInOwnOrder(tags: seq<string>)
    requires NoDup(tags)
    ensures InFirstAppearanceOrder(tags, tags)
  {
    forall i, j | 0 <= i < j < |tags|
      ensures tags[i] in tags && tags[j] in tags && FirstIndex(tags, tags[i]) < FirstIndex(tags, tags[j])
    {
      FirstIndexOfDistinct(tags, i);
      FirstIndexOfDistinct(tags, j);
    }
  }

  /**
   * Adding tags one by one to a duplicate-free list gives a duplicate-free list holding
   * exactly the old and new tags, starting with the old list, in order of first appearance.
   */
  lemma {:induction false} AddTagsFirstAppearance(tags: seq<string>, ts: seq<string>)
    requires NoDup(tags)
    ensures NoDup(AddTags(tags, ts))
    ensures forall x :: x in AddTags(tags, ts) <==> x in tags + ts
    ensures tags <= AddTags(tags, ts)
    ensures InFirstAppearanceOrder(AddTags(tags, ts), tags + ts)
    decreases |ts|
  {
    if ts == [] {
      assert tags + ts == tags;
      DistinctInOwnOrder(tags);
    } else {
      var ts', t := ts[..|ts| - 1], ts[|ts| - 1];
      var r' := AddTags(tags, ts');
      AddTagsFirstAppearance(tags, ts');
      assert AddTags(tags, ts) == AddTag(r', t);
      assert tags + ts == (tags + ts') + [t];
      AddTagKeepsOrder(r', tags + ts', t);
    }
  }
}
