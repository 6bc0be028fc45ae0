/**
 The story record of src/List.tsx and the list operations the reducer and the
 comment total are built from: counting entries by identifier, the
 identifier filter behind REMOVE_STORY, and the comment-count sum.
 */
module Stories {
  import opened Subsequences

  /** One search hit. Identity is `objectID`; only it and `numComments`
      take part in any computation, the other fields are carried along. */
  datatype Story = Story(
    objectID: string,
    url: string,
    title: string,
    author: string,
    numComments: nat,
    points: nat)

  type Stories = seq<Story>

  /** Number of entries of `data` whose identifier is `id`. */
  function CountId(data: Stories, id: string): (n: nat)
    ensures n <= |data|
    ensures n == 0 <==> forall i :: 0 <= i < |data| ==> data[i].objectID != id
  {
    if |data| == 0 then 0
    else (if data[0].objectID == id then 1 else 0) + CountId(data[1..], id)
  }

  /** The filter `data.filter(story => id !== story.objectID)`: the entries
      whose identifier differs from `id`, in their original order. Removal
      is by identifier only, so every duplicate of `id` goes. */
  function Without(data: Stories, id: string): (r: Stories)
    ensures forall i :: 0 <= i < |r| ==> r[i].objectID != id
    ensures |r| == |data| - CountId(data, id)
    ensures IsSubseq(r, data)
    ensures forall x :: x in data && x.objectID != id ==> x in r
  {
    if |data| == 0 then []
    else if data[0].objectID != id then [data[0]] + Without(data[1..], id)
    else Without(data[1..], id)
  }

  /** The complement of `Without`: the entries whose identifier is `id`. */
  function Matching(data: Stories, id: string): (r: Stories)
    ensures forall i :: 0 <= i < |r| ==> r[i].objectID == id
    ensures |r| == CountId(data, id)
  {
    if |data| == 0 then []
    else if data[0].objectID == id then [data[0]] + Matching(data[1..], id)
    else Matching(data[1..], id)
  }

  /** Reference sum of the comment counts, recursive from the right. */
  function TotalComments(data: Stories): (r: nat)
    ensures forall i :: 0 <= i < |data| ==> data[i].numComments <= r
  {
    if |data| == 0 then 0 else data[0].numComments + TotalComments(data[1..])
  }

  /** The fold `data.reduce((result, value) => result + value.num_comments, acc)`,
      consuming the entries left to right. */
  function SumFrom(acc: nat, data: Stories): (r: nat)
    ensures r == acc + TotalComments(data)
    decreases |data|
  {
    if |data| == 0 then acc else SumFrom(acc + data[0].numComments, data[1..])
  }

  /** Removing by identifier keeps multiplicities of the other stories and
      drops every copy of the matching ones. */
  lemma {:induction false} WithoutMultiset(data: Stories, id: string)
    ensures forall x :: multiset(Without(data, id))[x]
                        == if x.objectID == id then 0 else multiset(data)[x]
    decreases |data|
  {
    if |data| > 0 {
      WithoutMultiset(data[1..], id);
      assert data == [data[0]] + data[1..];
    }
  }

  /** A list without any entry for `id` is left as it is. */
  lemma {:induction false} WithoutNoMatch(data: Stories, id: string)
    requires CountId(data, id) == 0
    ensures Without(data, id) == data
  {
    SubseqSameLength(Without(data, id), data);
  }

  /** Removing the same identifier twice is removing it once. */
  lemma {:induction false} WithoutIdempotent(data: Stories, id: string)
    ensures Without(Without(data, id), id) == Without(data, id)
  {
    WithoutNoMatch(Without(data, id), id);
  }

  /** Removals by two identifiers can be performed in either order. */
  lemma {:induction false} WithoutCommutes(data: Stories, a: string, b: string)
    ensures Without(Without(data, a), b) == Without(Without(data, b), a)
    decreases |data|
  {
    if |data| > 0 {
      WithoutCommutes(data[1..], a, b);
    }
  }

  /** A subsequence free of `id` has room for at most the non-matching entries. */
  lemma {:induction false} FreeSubseqLength(r: Stories, data: Stories, id: string)
    requires IsSubseq(r, data)
    requires forall i :: 0 <= i < |r| ==> r[i].objectID != id
    ensures |r| <= |data| - CountId(data, id)
    decreases |data|
  {
    if |r| > 0 {
      if r[0] == data[0] && IsSubseq(r[1..], data[1..]) {
        FreeSubseqLength(r[1..], data[1..], id);
      } else {
        FreeSubseqLength(r, data[1..], id);
      }
    }
  }

  /** `Without` is the only order-preserving selection that drops every
      entry for `id` and nothing else: the filter is fully characterised by
      its contract. */
  lemma {:induction false} WithoutUnique(r: Stories, data: Stories, id: string)
    requires IsSubseq(r, data)
    requires forall i :: 0 <= i < |r| ==> r[i].objectID != id
    requires |r| == |data| - CountId(data, id)
    ensures r == Without(data, id)
    decreases |data|
  {
    if |data| > 0 {
      if data[0].objectID == id {
        WithoutUnique(r, data[1..], id);
      } else if |r| > 0 && r[0] == data[0] && IsSubseq(r[1..], data[1..]) {
        WithoutUnique(r[1..], data[1..], id);
        assert r == [r[0]] + r[1..];
      } else {
        FreeSubseqLength(r, data[1..], id);
        assert false;
      }
    }
  }

  /** The sum over a concatenation is the sum of the sums. */
  lemma {:induction false} TotalConcat(a: Stories, b: Stories)
    ensures TotalComments(a + b) == TotalComments(a) + TotalComments(b)
    decreases |a|
  {
    if |a| > 0 {
      TotalConcat(a[1..], b);
      assert (a + b)[1..] == a[1..] + b;
    } else {
      assert a + b == b;
    }
  }

  /** The comments of a list split into those of the kept and of the removed entries. */
  lemma {:induction false} TotalSplitsOnId(data: Stories, id: string)
    ensures TotalComments(data)
            == TotalComments(Without(data, id)) + TotalComments(Matching(data, id))
    decreases |data|
  {
    if |data| > 0 {
      TotalSplitsOnId(data[1..], id);
    }
  }

  /** When every matching entry has `n` comments, they contribute `n` per entry. */
  lemma {:induction false} TotalOfMatching(data: Stories, id: string, n: nat)
    requires forall i :: 0 <= i < |data| && data[i].objectID == id ==> data[i].numComments == n
    ensures TotalComments(Matching(data, id)) == n * CountId(data, id)
    decreases |data|
  {
    if |data| > 0 {
      TotalOfMatching(data[1..], id, n);
    }
  }
}
