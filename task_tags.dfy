/**
 * The tag vocabulary of a task collection: every tag used by any task, each
 * once, in the order the tags first appear. The task form offers these as
 * suggestions and the filter panel as options of its tag filter; both build
 * the list the same way, `Array.from(new Set(tasks.flatMap((t) => t.tags || [])))`.
 */
module TaskTags {
  import opened Types
  import opened Seqs

  /** Some task of the collection carries the tag `x`. */
  predicate Tagged(ts: seq<Task>, x: string)
  {
    exists i :: 0 <= i < |ts| && x in TagList(ts[i])
  }

  /** `tasks.flatMap((t) => t.tags || [])`: the tag lists one after the other, duplicates kept. */
  function TagsOf(ts: seq<Task>): (r: seq<string>)
    ensures forall x :: x in r <==> Tagged(ts, x)
  {
    if ts == [] then []
    else
      var r := TagList(ts[0]) + TagsOf(ts[1..]);
      assert forall x :: Tagged(ts, x) <==> x in TagList(ts[0]) || Tagged(ts[1..], x) by {
        forall x | Tagged(ts, x) && x !in TagList(ts[0]) ensures Tagged(ts[1..], x) {
          var i :| 0 <= i < |ts| && x in TagList(ts[i]);
          assert ts[1..][i - 1] == ts[i];
        }
        forall x | Tagged(ts[1..], x) ensures Tagged(ts, x) {
          var i :| 0 <= i < |ts[1..]| && x in TagList(ts[1..][i]);
          assert ts[i + 1] == ts[1..][i];
        }
      }
      r
  }

  lemma {:induction false} TagsOfConcat(a: seq<Task>, b: seq<Task>)
    ensures TagsOf(a + b) == TagsOf(a) + TagsOf(b)
  {
    if a != [] {
      assert (a + b)[0] == a[0];
      assert (a + b)[1..] == a[1..] + b;
      TagsOfConcat(a[1..], b);
    } else {
      assert a + b == b;
    }
  }

  /** `allTags`: the distinct tags of the collection; a tag is listed iff some task carries it. */
  function AllTags(ts: seq<Task>): (r: seq<string>)
    ensures forall x :: x in r <==> Tagged(ts, x)
    ensures Distinct(r)
  {
    Dedup(TagsOf(ts))
  }

  /** Every tag of every task is listed exactly once, and nothing else is listed. */
  lemma AllTagsExactlyOnce(ts: seq<Task>, x: string)
    ensures Count(AllTags(ts), x) == if Tagged(ts, x) then 1 else 0
  {
    DistinctCount(AllTags(ts), x);
  }

  /** The tags are listed in the order in which they first occur in the flattened tag lists. */
  lemma AllTagsFirstOccurrenceOrder(ts: seq<Task>)
    ensures forall i, j :: 0 <= i < j < |AllTags(ts)| ==>
      FirstIndex(TagsOf(ts), AllTags(ts)[i]) < FirstIndex(TagsOf(ts), AllTags(ts)[j])
  {
    DedupFirstOccurrenceOrder(TagsOf(ts));
  }

  /** A task whose tags are absent or empty, wherever it stands, leaves the list unchanged. */
  lemma UntaggedContributesNothing(a: seq<Task>, t: Task, b: seq<Task>)
    requires t.tags == None || t.tags == Some([])
    ensures AllTags(a + [t] + b) == AllTags(a + b)
  {
    TagsOfConcat(a + [t], b);
    TagsOfConcat(a, [t]);
    TagsOfConcat(a, b);
    assert TagsOf([t]) == [] by {
      assert [t][1..] == [];
    }
    assert TagsOf(a) + [] == TagsOf(a);
  }
}
