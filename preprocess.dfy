/**
 * The three preprocess helpers, as methods that change the site in place:
 * the item collection (`@items`) and the webmaster-tools descriptors of the
 * configuration (`@site.config[:webmaster_tools]`).
 */
module Preprocess {
  import opened Items
  import opened Config
  import Sitemap
  import Webmaster
  import RobotsTxt

  class Site {
    /** `@items`: the collection, in order. */
    var items: seq<Item>
    /** `@site.config[:webmaster_tools]`; None when the key is missing. */
    var webmasterTools: Option<seq<Descriptor>>
    /** `@site.config[:robots]`; None when it is missing, nil or false. */
    const robots: Option<Robots>

    constructor (items: seq<Item>, webmasterTools: Option<seq<Descriptor>>, robots: Option<Robots>)
      ensures this.items == items && this.webmasterTools == webmasterTools && this.robots == robots
    {
      this.items := items;
      this.webmasterTools := webmasterTools;
      this.robots := robots;
    }

    /**
     * `create_sitemap`: hide every asset, error page and htaccess item that
     * has no `is_hidden` key of its own, then append the sitemap item.
     */
    method CreateSitemap()
      modifies this`items
      ensures |items| == |old(items)| + 1
      ensures items[..|old(items)|] == Sitemap.MarkAll(old(items))
      ensures items[|old(items)|] == Sitemap.SitemapItem
    {
      var i := 0;
      while i < |items|
        invariant 0 <= i <= |items| == |old(items)|
        invariant forall j :: 0 <= j < i ==> items[j] == Sitemap.MarkHidden(old(items)[j])
        invariant forall j :: i <= j < |items| ==> items[j] == old(items)[j]
      {
        var item := items[i];
        if Sitemap.Hides(item) && "is_hidden" !in item.attributes {
          items := items[i := item.(attributes := item.attributes["is_hidden" := Bool(true)])];
        }
        i := i + 1;
      }
      items := items + [Sitemap.SitemapItem];
    }

    /**
     * `create_webmaster_tools_authentications`: every descriptor with an
     * identifier loses its `content` and `identifier` keys and gives one
     * item built from what is left of it, appended in descriptor order. The
     * item is not hidden: the hash `merge` returns is dropped. A missing
     * `webmaster_tools` list raises before anything changes.
     */
    method CreateWebmasterToolsAuthentications() returns (outcome: Result<()>)
      modifies this`items, this`webmasterTools
      ensures old(webmasterTools).None? ==>
        outcome == Err(NilWebmasterTools) && items == old(items) && webmasterTools == old(webmasterTools)
      ensures old(webmasterTools).Some? ==>
        && outcome == Ok(())
        && items == old(items) + Webmaster.AsWrittenAuthItems(old(webmasterTools).value)
        && webmasterTools.Some? && |webmasterTools.value| == |old(webmasterTools).value|
        && forall i :: 0 <= i < |webmasterTools.value| ==>
             webmasterTools.value[i] ==
               (if Webmaster.Identified(old(webmasterTools).value[i])
                then Webmaster.Consumed(old(webmasterTools).value[i])
                else old(webmasterTools).value[i])
    {
      if webmasterTools.None? {
        return Err(NilWebmasterTools);
      }
      var ds := webmasterTools.value;
      var i := 0;
      while i < |ds|
        invariant 0 <= i <= |ds|
        invariant webmasterTools.Some? && |webmasterTools.value| == |ds|
        invariant forall j :: 0 <= j < i ==>
          webmasterTools.value[j] == (if Webmaster.Identified(ds[j]) then Webmaster.Consumed(ds[j]) else ds[j])
        invariant forall j :: i <= j < |ds| ==> webmasterTools.value[j] == ds[j]
        invariant items == old(items) + Webmaster.AsWrittenAuthItems(ds[..i])
      {
        var file := webmasterTools.value[i];
        assert ds[..i + 1][..i] == ds[..i];
        if Lookup(file, "identifier") != Nil {
          var content := Lookup(file, "content");
          file := file - {"content"};
          var identifier := Lookup(file, "identifier");
          file := file - {"identifier"};
          webmasterTools := Some(webmasterTools.value[i := file]);
          var merged := file["is_hidden" := Bool(true)];  // `file.merge(...)`: a new hash, never used
          items := items + [Item(content, file, identifier)];
        }
        i := i + 1;
      }
      assert ds[..|ds|] == ds;
      return Ok(());
    }

    /**
     * `create_robots_txt`: when `robots` is configured, append the robots.txt
     * item with the default or the custom policy; a custom policy without a
     * `disallow` list raises before anything changes.
     */
    method CreateRobotsTxt() returns (outcome: Result<()>)
      modifies this`items
      ensures robots.None? ==> outcome == Ok(()) && items == old(items)
      ensures robots.Some? && RobotsTxt.Content(robots.value).Ok? ==>
        outcome == Ok(()) && items == old(items) + [RobotsTxt.RobotsItem(RobotsTxt.Content(robots.value).value)]
      ensures robots.Some? && RobotsTxt.Content(robots.value).Err? ==>
        outcome == Err(RobotsTxt.Content(robots.value).error) && items == old(items)
    {
      if robots.None? {
        return Ok(());
      }
      var content := RobotsTxt.Content(robots.value);
      if content.Err? {
        return Err(content.error);
      }
      items := items + [RobotsTxt.RobotsItem(content.value)];
      return Ok(());
    }
  }
}
