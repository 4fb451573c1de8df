/** The pure part of `create_webmaster_tools_authentications`: the item each descriptor produces. */
module Webmaster {
  import opened Items
  import opened Config

  /** `file[:identifier]` is not nil: the descriptor names a file to create. */
  predicate Identified(d: Descriptor) {
    Lookup(d, "identifier") != Nil
  }

  /** The descriptor after `file.delete(:content)` and `file.delete(:identifier)`. */
  function Consumed(d: Descriptor): (r: Descriptor)
    ensures r.Keys == d.Keys - {"content", "identifier"}
    ensures forall k :: k in r ==> r[k] == d[k]
  {
    d - {"content", "identifier"}
  }

  /**
   * The item built as the code is written: the result of
   * `file.merge({ :is_hidden => true })` is discarded, so the item's
   * attributes are the consumed descriptor and nothing more.
   */
  function AsWrittenAuthItem(d: Descriptor): (r: Item)
    ensures r.content == Lookup(d, "content") && r.identifier == Lookup(d, "identifier")
    ensures r.attributes.Keys == d.Keys - {"content", "identifier"}
    ensures forall k :: k in r.attributes ==> r.attributes[k] == d[k]
  {
    Item(Lookup(d, "content"), Consumed(d), Lookup(d, "identifier"))
  }

  /**
   * The item the helper is meant to build: content and identifier taken from
   * the descriptor, the rest of the descriptor as attributes, and the file
   * hidden from the sitemap.
   */
  function AuthItem(d: Descriptor): (r: Item)
    ensures r.content == Lookup(d, "content") && r.identifier == Lookup(d, "identifier")
    ensures r.attributes.Keys == d.Keys - {"content", "identifier"} + {"is_hidden"}
    ensures r.attributes["is_hidden"] == Bool(true)
    ensures forall k :: k in r.attributes && k != "is_hidden" ==> r.attributes[k] == d[k]
  {
    Item(Lookup(d, "content"), Consumed(d)["is_hidden" := Bool(true)], Lookup(d, "identifier"))
  }

  /** The two differ only in the `is_hidden` flag the discarded `merge` would have added. */
  lemma AsWrittenMissesHidden(d: Descriptor)
    ensures AuthItem(d) == AsWrittenAuthItem(d).(attributes := AsWrittenAuthItem(d).attributes["is_hidden" := Bool(true)])
  {
  }

  /** A descriptor from the verification-file example: as written, its item is not hidden. */
  lemma AsWrittenGoogleExample()
    ensures var d := map["identifier" := Str("/google123.html"), "content" := Str("google-site-verification")];
      && AsWrittenAuthItem(d).attributes == map[]
      && Lookup(AsWrittenAuthItem(d).attributes, "is_hidden") == Nil
      && AuthItem(d) == Item(Str("google-site-verification"), map["is_hidden" := Bool(true)], Str("/google123.html"))
      && AsWrittenAuthItems([d]) == [Item(Str("google-site-verification"), map[], Str("/google123.html"))]
  {
  }

  /**
   * The items appended by the loop over the descriptors `ds`, in descriptor
   * order, each built from its descriptor by `build`.
   */
  function Produced(ds: seq<Descriptor>, build: Descriptor -> Item): (r: seq<Item>)
    ensures |r| <= |ds|
    ensures forall j :: 0 <= j < |r| ==>
      exists i :: 0 <= i < |ds| && Identified(ds[i]) && r[j] == build(ds[i])
  {
    if ds == [] then []
    else
      var init, last := ds[..|ds| - 1], ds[|ds| - 1];
      var r := Produced(init, build) + (if Identified(last) then [build(last)] else []);
      assert forall i :: 0 <= i < |init| ==> init[i] == ds[i];
      r
  }

  /** The items the loop of lines 41-51 appends as the code is written. */
  function AsWrittenAuthItems(ds: seq<Descriptor>): (r: seq<Item>)
    ensures |r| <= |ds|
    ensures forall j :: 0 <= j < |r| ==>
      r[j].identifier != Nil && "content" !in r[j].attributes && "identifier" !in r[j].attributes
  {
    Produced(ds, AsWrittenAuthItem)
  }

  /** The items the loop would append if the merged hash were kept: all of them hidden. */
  function AuthItems(ds: seq<Descriptor>): (r: seq<Item>)
    ensures |r| <= |ds|
    ensures forall j :: 0 <= j < |r| ==> r[j].identifier != Nil && Lookup(r[j].attributes, "is_hidden") == Bool(true)
  {
    Produced(ds, AuthItem)
  }

  /** The intended run and the run as written produce the same items, up to the `is_hidden` flag. */
  lemma {:induction false} AsWrittenItemsMissHidden(ds: seq<Descriptor>)
    ensures |AuthItems(ds)| == |AsWrittenAuthItems(ds)|
    ensures forall j :: 0 <= j < |AuthItems(ds)| ==>
      AuthItems(ds)[j] == AsWrittenAuthItems(ds)[j].(attributes := AsWrittenAuthItems(ds)[j].attributes["is_hidden" := Bool(true)])
    decreases |ds|
  {
    if ds != [] {
      AsWrittenItemsMissHidden(ds[..|ds| - 1]);
      AsWrittenMissesHidden(ds[|ds| - 1]);
    }
  }

  /** Descriptors without an identifier produce no item at all. */
  lemma {:induction false} AuthItemsSkipAll(ds: seq<Descriptor>, build: Descriptor -> Item)
    requires forall i :: 0 <= i < |ds| ==> !Identified(ds[i])
    ensures Produced(ds, build) == []
    decreases |ds|
  {
    if ds != [] {
      AuthItemsSkipAll(ds[..|ds| - 1], build);
    }
  }

  /**
   * Every identified descriptor produces exactly one item, built from it, at
   * the position given by the number of items produced before it; so the
   * items follow descriptor order.
   */
  lemma {:induction false} AuthItemsPlace(ds: seq<Descriptor>, build: Descriptor -> Item, i: nat)
    requires i < |ds| && Identified(ds[i])
    ensures |Produced(ds[..i + 1], build)| == |Produced(ds[..i], build)| + 1
    ensures |Produced(ds[..i], build)| < |Produced(ds, build)|
    ensures Produced(ds, build)[|Produced(ds[..i], build)|] == build(ds[i])
    decreases |ds|
  {
    assert ds[..i + 1][..i] == ds[..i];
    if i < |ds| - 1 {
      var init := ds[..|ds| - 1];
      assert init[..i] == ds[..i] && init[..i + 1] == ds[..i + 1];
      AuthItemsPlace(init, build, i);
    } else {
      assert ds[..i + 1] == ds;
    }
  }

  /** Every appended item is built from an identified descriptor, the one at its rank. */
  lemma {:induction false} AuthItemsSource(ds: seq<Descriptor>, build: Descriptor -> Item, j: nat)
    requires j < |Produced(ds, build)|
    ensures exists i ::
      && 0 <= i < |ds| && Identified(ds[i])
      && |Produced(ds[..i], build)| == j && Produced(ds, build)[j] == build(ds[i])
    decreases |ds|
  {
    var n := |ds| - 1;
    var init := ds[..n];
    if j < |Produced(init, build)| {
      AuthItemsSource(init, build, j);
      var i :| 0 <= i < |init| && Identified(init[i]) &&
        |Produced(init[..i], build)| == j && Produced(init, build)[j] == build(init[i]);
      assert init[..i] == ds[..i];
    } else {
      assert Identified(ds[n]) && Produced(ds, build)[j] == build(ds[n]);
      assert ds[..n] == init;
    }
  }
}
