/**
 * `TagSelectorView`: chips for the five tags; tapping one removes it from
 * the selection if present, or appends it.
 */
module TagSelector {
  import opened Wrappers
  import opened Seqs
  import opened Domain

  /** `toggle(_:)`: remove the first occurrence of the tag, or append it when absent. */
  function Toggle(tags: seq<Tag>, tag: Tag): (r: seq<Tag>)
    ensures tag !in tags ==> r == tags + [tag]
    ensures tag in tags ==> |r| == |tags| - 1 && multiset(r) == multiset(tags) - multiset{tag}
    ensures tag in tags ==> exists i :: FirstOccurrence(tags, tag, i) && r == tags[..i] + tags[i + 1..]
  {
    match FirstIndexWhere(tags, (t: Tag) => t == tag)
    case None => tags + [tag]
    case Some(i) =>
      assert tags == tags[..i] + [tags[i]] + tags[i + 1..];
      assert FirstOccurrence(tags, tag, i);
      tags[..i] + tags[i + 1..]
  }

  /** `i` is where `tag` first occurs. */
  predicate FirstOccurrence(tags: seq<Tag>, tag: Tag, i: int) {
    0 <= i < |tags| && tags[i] == tag && forall j :: 0 <= j < i ==> tags[j] != tag
  }

  /** Tapping a chip flips whether its tag is selected, when no tag is selected twice. */
  lemma ToggleFlipsSelection(tags: seq<Tag>, tag: Tag)
    requires NoDuplicates(tags)
    ensures (tag in Toggle(tags, tag)) <==> tag !in tags
    ensures NoDuplicates(Toggle(tags, tag))
  {
    var r := Toggle(tags, tag);
    if tag in tags {
      var i :| FirstOccurrence(tags, tag, i) && r == tags[..i] + tags[i + 1..];
      forall a, b | 0 <= a < b < |r| ensures r[a] != r[b] {
        var a' := if a < i then a else a + 1;
        var b' := if b < i then b else b + 1;
        assert r[a] == tags[a'] && r[b] == tags[b'];
      }
    }
  }

  /** Tapping the same chip twice restores a selection that lacked the tag. */
  lemma ToggleTwiceRestores(tags: seq<Tag>, tag: Tag)
    requires tag !in tags
    ensures Toggle(Toggle(tags, tag), tag) == tags
  {
    var once := tags + [tag];
    assert FirstOccurrence(once, tag, |tags|);
    assert forall j :: 0 <= j < |tags| ==> once[j] == tags[j];
    assert once[..|tags|] == tags;
  }

  /** A selection of distinct tags never holds more than the five there are. */
  lemma SelectionIsBounded(tags: seq<Tag>)
    requires NoDuplicates(tags)
    ensures |tags| <= |AllTags|
  {
    var all: set<Tag> := {Vegetarian, Vegan, GlutenFree, DairyFree, Pescatarian};
    var seen := set t | t in tags;
    assert seen <= all by {
      forall t: Tag ensures t in all {
        match t
        case Vegetarian =>
        case Vegan =>
        case GlutenFree =>
        case DairyFree =>
        case Pescatarian =>
      }
    }
    DistinctCardinality(tags);
    SubsetCardinality(seen, all);
  }

  lemma {:induction false} SubsetCardinality(a: set<Tag>, b: set<Tag>)
    requires a <= b
    ensures |a| <= |b|
  {
    if a != {} {
      var x :| x in a;
      SubsetCardinality(a - {x}, b - {x});
    }
  }

  /** A list without repeats has as many elements as its set of elements. */
  lemma {:induction false} DistinctCardinality(tags: seq<Tag>)
    requires NoDuplicates(tags)
    ensures |set t | t in tags| == |tags|
  {
    if |tags| > 0 {
      var rest := tags[1..];
      assert NoDuplicates(rest) by {
        forall a, b | 0 <= a < b < |rest| ensures rest[a] != rest[b] {
          assert rest[a] == tags[a + 1] && rest[b] == tags[b + 1];
        }
      }
      DistinctCardinality(rest);
      assert tags[0] !in rest by {
        forall k | 0 <= k < |rest| ensures rest[k] != tags[0] {
          assert rest[k] == tags[k + 1];
        }
      }
      assert (set t | t in tags) == (set t | t in rest) + {tags[0]} by {
        assert tags == [tags[0]] + rest;
      }
    }
  }
}
