/**
 * `Taggable`: a label set meant to be embedded in another type. Unlike `Tags`
 * it stores labels exactly as given, with no trimming.
 */
module TaggableSet {
  import opened Maps

  class Taggable {
    /** The label map; `Nil` until the first method call makes it. */
    var tags: PresenceMap

    /** The labels currently stored. */
    function Contents(): set<string>
      reads this
    {
      tags.Elements()
    }

    /** The zero value of `Taggable`: no map yet, no labels. */
    constructor Zero()
      ensures tags == Nil && Contents() == {}
    {
      tags := Nil;
    }

    /** `initTaggable`: makes the map when it is nil; the labels do not change. */
    method InitTaggable()
      modifies this
      ensures tags == Made(old(Contents()))
    {
      if tags == Nil {
        tags := Made({});
      }
    }

    /** `Tags`: every label once, in an order that may differ between calls. */
    method Tags() returns (labels: seq<string>)
      modifies this
      ensures tags == Made(old(Contents()))
      ensures Enumerates(labels, Contents()) && |labels| == |Contents()|
    {
      InitTaggable();
      labels := Keys(tags.keys);
    }

    /** `HasTag`: whether exactly `tag` is stored. */
    method HasTag(tag: string) returns (ok: bool)
      modifies this
      ensures tags == Made(old(Contents()))
      ensures ok <==> tag in Contents()
    {
      InitTaggable();
      ok := tag in tags.keys;
    }

    /** `Tag`: stores `tag` as given; tagging a stored label changes nothing. */
    method Tag(tag: string)
      modifies this
      ensures tags == Made(old(Contents()) + {tag})
    {
      InitTaggable();
      tags := Made(tags.keys + {tag});
    }

    /** `Untag`: deletes `tag`, if stored; no other label changes. */
    method Untag(tag: string)
      modifies this
      ensures tags == Made(old(Contents()) - {tag})
    {
      InitTaggable();
      tags := Made(tags.keys - {tag});
    }

    /** `NumTags`: the number of distinct labels. */
    method NumTags() returns (n: int)
      modifies this
      ensures tags == Made(old(Contents()))
      ensures n == |Contents()|
    {
      var labels := Tags();
      n := |labels|;
    }
  }

  /** A zero `Taggable` tagged once lists exactly that tag. */
  method TagThenList() returns (labels: seq<string>)
    ensures labels == ["wow"]
  {
    var a := new Taggable.Zero();
    a.Tag("wow");
    labels := a.Tags();
    EnumerationSingleton(labels, "wow");
  }

  /** Three distinct tags count three; tagging one of them again adds nothing. */
  method TagThreeCount() returns (n: int, again: int)
    ensures n == 3 && again == 3
  {
    var a := new Taggable.Zero();
    a.Tag("wow");
    a.Tag("such");
    a.Tag("tag");
    assert a.Contents() == {"wow"} + {"such"} + {"tag"};
    assert |{"wow"} + {"such"}| == 2 && "tag" !in {"wow"} + {"such"};
    n := a.NumTags();
    ghost var three := a.Contents();
    a.Tag("such");
    assert a.Contents() == three;
    again := a.NumTags();
  }

  /** `HasTag` sees a tagged label and not one never tagged. */
  method HasTagAfterTag() returns (has: bool, hasOther: bool)
    ensures has && !hasOther
  {
    var a := new Taggable.Zero();
    a.Tag("wow");
    has := a.HasTag("wow");
    hasOther := a.HasTag("such");
  }

  /** `Untag` removes the label, leaves the others, and untagging an absent label changes nothing. */
  method UntagAfterTag() returns (before: bool, after: bool, other: bool, n: int)
    ensures before && !after && other && n == 1
  {
    var a := new Taggable.Zero();
    a.Tag("wow");
    a.Tag("such");
    before := a.HasTag("wow");
    a.Untag("wow");
    a.Untag("never");
    after := a.HasTag("wow");
    other := a.HasTag("such");
    n := a.NumTags();
  }

  /** No trimming: `" wow "` and `"wow"` are two different tags. */
  method SpacesKept() returns (spaced: bool, plain: bool, n: int)
    ensures spaced && !plain && n == 2
  {
    var a := new Taggable.Zero();
    a.Tag(" wow ");
    spaced := a.HasTag(" wow ");
    plain := a.HasTag("wow");
    a.Tag("wow");
    n := a.NumTags();
  }
}
