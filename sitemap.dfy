/** The pure part of `create_sitemap`: which items are kept out of the sitemap, and the sitemap item. */
module Sitemap {
  import opened Items
  import Text

  /** Extensions of typical assets, which never appear in the sitemap. */
  const AssetExtensions: set<string> := {"png", "gif", "jpg", "jpeg", "css", "xml", "js", "txt"}

  /** The item whose content Nanoc's `xml_sitemap` helper renders later. */
  const SitemapItem: Item := Item(Str("<%= xml_sitemap %>"), map["extension" := Str("xml")], Str("/sitemap/"))

  /** The `extension` attribute is one of the asset extensions (an exact, case-sensitive match). */
  predicate AssetExtension(item: Item) {
    var ext := Lookup(item.attributes, "extension");
    ext.Str? && ext.s in AssetExtensions
  }

  /**
   * The identifier matches `/404|500|htaccess/`: it names an error page or
   * the htaccess file. A non-string identifier matches nothing.
   */
  predicate SystemIdentifier(item: Item) {
    item.identifier.Str? &&
    (Text.Contains(item.identifier.s, "404") ||
     Text.Contains(item.identifier.s, "500") ||
     Text.Contains(item.identifier.s, "htaccess"))
  }

  /** The condition of the `if` inside the loop of `create_sitemap`. */
  predicate Hides(item: Item) {
    AssetExtension(item) || SystemIdentifier(item)
  }

  /** The meaning of `Hides` with the pattern search replaced by plain occurrence at a position. */
  lemma HidesMeaning(item: Item)
    ensures Hides(item) <==>
      || ("extension" in item.attributes &&
          item.attributes["extension"].Str? && item.attributes["extension"].s in AssetExtensions)
      || (item.identifier.Str? &&
          ((exists i: nat :: Text.OccursAt(item.identifier.s, "404", i)) ||
           (exists i: nat :: Text.OccursAt(item.identifier.s, "500", i)) ||
           (exists i: nat :: Text.OccursAt(item.identifier.s, "htaccess", i))))
  {
    if item.identifier.Str? {
      Text.ContainsIff(item.identifier.s, "404");
      Text.ContainsIff(item.identifier.s, "500");
      Text.ContainsIff(item.identifier.s, "htaccess");
    }
  }

  /**
   * One step of the loop: an item that `Hides` and has no `is_hidden` key
   * gains `is_hidden = true`; every key it already had keeps its value.
   */
  function MarkHidden(item: Item): (r: Item)
    ensures r.content == item.content && r.identifier == item.identifier
    ensures r.attributes.Keys == item.attributes.Keys + (if Hides(item) then {"is_hidden"} else {})
    ensures forall k :: k in item.attributes ==> r.attributes[k] == item.attributes[k]
    ensures Hides(item) && "is_hidden" !in item.attributes ==> r.attributes["is_hidden"] == Bool(true)
  {
    if Hides(item) && "is_hidden" !in item.attributes then
      item.(attributes := item.attributes["is_hidden" := Bool(true)])
    else
      item
  }

  /** The whole loop of `create_sitemap`, item by item and in place. */
  function MarkAll(items: seq<Item>): (r: seq<Item>)
    ensures |r| == |items|
    ensures forall j :: 0 <= j < |items| ==> r[j] == MarkHidden(items[j])
  {
    if items == [] then [] else [MarkHidden(items[0])] + MarkAll(items[1..])
  }

  /** Running the loop a second time changes nothing: every item it hides now carries the key. */
  lemma MarkAllIdempotent(items: seq<Item>)
    ensures MarkAll(MarkAll(items)) == MarkAll(items)
  {
  }

  /**
   * After `create_sitemap`, when no item was named `/sitemap/` before, exactly
   * one item is, the last one, whatever the size of the collection.
   */
  lemma SitemapAppearsOnce(items: seq<Item>)
    requires forall j :: 0 <= j < |items| ==> items[j].identifier != Str("/sitemap/")
    ensures var r := MarkAll(items) + [SitemapItem];
      forall j :: 0 <= j < |r| ==> (r[j].identifier == Str("/sitemap/") <==> j == |items|)
  {
  }
}
