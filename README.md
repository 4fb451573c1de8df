# Nanoc preprocess helpers, modelled in Dafny

This project models the three preprocess helpers of a Nanoc site template
(`lib/preprocessors.rb`). They run once per build, before compilation. Each
one changes the site's item collection in place:

- `create_sitemap` hides assets, error pages and the htaccess file from the
  sitemap. An item that already has an `is_hidden` key keeps it. The helper
  then appends the `/sitemap/` item.
- `create_webmaster_tools_authentications` turns every configured
  verification-file descriptor that has an identifier into an item. It
  removes `content` and `identifier` from the descriptor in place.
- `create_robots_txt` appends a `/robots/` item when `robots` is configured.
  Its text is either a fixed default policy or custom `Disallow`/`Allow`
  lines followed by a `Sitemap` line.

Layout:

- `items.dfy` (module `Items`): attribute values (nil, booleans, integers, strings), items, Ruby truthiness and `Hash#[]`.
- `config.dfy` (module `Config`): the `robots` hash, the webmaster-tools descriptors, and the errors the helpers raise.
- `text.dfy` (module `Text`): literal substring search, proved equal to "occurs at some position"; joining lines with `"\n"`, proved to split back into the same lines.
- `sitemap.dfy`, `webmaster.dfy`, `robots.dfy`: the pure part of each helper, with the lemmas about it.
- `preprocess.dfy` (module `Preprocess`): class `Site` holds the collection (`items`), the descriptors (`webmasterTools`) and the `robots` configuration. It has one method per helper, each proved against the functions above.

The instance variables `@items` and `@site` become the fields of `Site`. The
exceptions Ruby raises on a configuration of the wrong shape become the
`Err` case of a `Result`. When a helper fails, the model leaves the site unchanged.

## Model

| member | source | states |
|---|---|---|
| `Text.ContainsIff` | lib/preprocessors.rb:21 | the pattern search finds `404`, `500` or `htaccess` exactly when the text occurs at some position of the identifier (both directions) |
| `Sitemap.HidesMeaning` | lib/preprocessors.rb:20-21 | an item is a hiding candidate exactly when its `extension` attribute is one of png, gif, jpg, jpeg, css, xml, js, txt, or its identifier contains `404`, `500` or `htaccess` |
| `Sitemap.MarkHidden` | lib/preprocessors.rb:20-22 | content and identifier are kept; the only key ever added is `is_hidden`, and only to a candidate; a candidate without the key gets `is_hidden = true`; every key the item already had (an `is_hidden` of false included) keeps its value |
| `Sitemap.MarkAll` | lib/preprocessors.rb:19-24 | the loop keeps the length and the position of every item and applies the per-item step to each |
| `Sitemap.MarkAllIdempotent` | lib/preprocessors.rb:19-24 | running the hiding loop a second time changes nothing |
| `Sitemap.SitemapAppearsOnce` | lib/preprocessors.rb:25-29 | when no item was named `/sitemap/` before, exactly one item is named so afterwards: the last one, even in an empty collection |
| `Preprocess.Site.CreateSitemap` | lib/preprocessors.rb:18-30 | the collection grows by exactly one; the earlier items stay in place, each after the hiding step; the last item is the `/sitemap/` item with extension `xml` and content `<%= xml_sitemap %>` |
| `Webmaster.Consumed` | lib/preprocessors.rb:43-44 | the descriptor loses exactly its `content` and `identifier` keys; every other key keeps its value |
| `Webmaster.AsWrittenAuthItem` | lib/preprocessors.rb:43-50 | the item as the code builds it: content and identifier come from the descriptor; the attributes are exactly the descriptor's other keys with their values, and no `is_hidden` is added (see Findings) |
| `Webmaster.AuthItem` | lib/preprocessors.rb:43-50 | the item as intended: content and identifier come from the descriptor; the attributes are the rest of the descriptor plus `is_hidden = true` |
| `Webmaster.AsWrittenMissesHidden` | lib/preprocessors.rb:45 | the intended item differs from the as-written one only by the `is_hidden = true` that the discarded `merge` carries |
| `Webmaster.AsWrittenGoogleExample` | lib/preprocessors.rb:41-50 | for `{identifier: "/google123.html", content: "google-site-verification"}`, the loop as written appends exactly one item, with that content and identifier and empty attributes (so no `is_hidden`); the intended item is hidden |
| `Webmaster.Produced` | lib/preprocessors.rb:41-51 | the loop appends at most one item per descriptor, and each item is built from a descriptor that has an identifier |
| `Webmaster.AsWrittenAuthItems` | lib/preprocessors.rb:41-51 | the loop as written: at most one item per descriptor; every item has a non-nil identifier and no `content` or `identifier` attribute |
| `Webmaster.AuthItems` | lib/preprocessors.rb:41-51 | the corrected loop (see Findings): at most one item per descriptor; every item has a non-nil identifier and `is_hidden = true` |
| `Webmaster.AsWrittenItemsMissHidden` | lib/preprocessors.rb:45 | the corrected loop and the loop as written give the same number of items, and at each position the same item except for `is_hidden = true` |
| `Webmaster.AuthItemsSkipAll` | lib/preprocessors.rb:42 | descriptors without an identifier produce no item, whichever way items are built |
| `Webmaster.AuthItemsPlace` | lib/preprocessors.rb:41-50 | each identified descriptor adds exactly one item, built from that descriptor (by `AsWrittenAuthItem` for the code as written), at the position that counts the items produced before it, so the items follow descriptor order |
| `Webmaster.AuthItemsSource` | lib/preprocessors.rb:41-50 | every appended item is built from one identified descriptor, the one at its rank, so no other items appear; this holds for the as-written builder and for the corrected one |
| `Preprocess.Site.CreateWebmasterToolsAuthentications` | lib/preprocessors.rb:40-52 | a missing `webmaster_tools` list raises and changes nothing; otherwise the as-written items of the identified descriptors are appended in descriptor order (not hidden, as the code is written), each such descriptor loses `content` and `identifier`, and the other descriptors are untouched |
| `RobotsTxt.Directives` | lib/preprocessors.rb:70-71 | one directive line per path, in order, each the keyword followed by the path |
| `RobotsTxt.CustomLines` | lib/preprocessors.rb:68-73 | custom mode has 2 + disallow + allow lines: `User-Agent: *`, the `Disallow:` lines, the `Allow:` lines (none when `allow` is missing) and `Sitemap: <sitemap>` (empty when the sitemap is nil) |
| `RobotsTxt.Content` | lib/preprocessors.rb:65-74 | a truthy `default` gives the fixed policy; otherwise a missing `disallow` list is an error (and the only error); otherwise the text is the custom lines joined with `"\n"` |
| `Text.SplitJoin` | lib/preprocessors.rb:73 | lines without line breaks, joined with `"\n"`, split back into exactly the same lines |
| `Text.JoinLinesEndsWithLast` | lib/preprocessors.rb:73 | the joined text ends with the last line, so `join` adds no trailing separator |
| `RobotsTxt.CustomContentLines` | lib/preprocessors.rb:68-73 | the custom text reads back as exactly the custom lines in order: 2 + disallow + allow of them, none blank, and no newline at the end |
| `RobotsTxt.DefaultContentLines` | lib/preprocessors.rb:66 | the default text is the four lines `User-agent: *`, `Disallow: /assets`, `Allow: /assets/images`, `Sitemap: /sitemap.xml` |
| `RobotsTxt.CustomWithoutAllowExample` | lib/preprocessors.rb:68-73 | `{default: false, disallow: ["/admin"], sitemap: "/sitemap.xml"}` gives `User-Agent: *`, `Disallow: /admin`, `Sitemap: /sitemap.xml` with no blank line for the missing `allow` |
| `Preprocess.Site.CreateRobotsTxt` | lib/preprocessors.rb:63-81 | without `robots` nothing changes; otherwise one item is appended: the text of the policy, extension `txt`, `is_hidden = true`, identifier `/robots/`; a custom policy without `disallow` raises and appends nothing |

## Findings

| source | as written | input that shows it | evidently intended | confidence | as-written member | corrected member |
|---|---|---|---|---|---|---|
| lib/preprocessors.rb:45 | `file.merge({ :is_hidden => true })` returns a new hash, and the code drops it; the item is built from `file` without `is_hidden` | descriptor `{identifier: "/google123.html", content: "google-site-verification"}`: the item's attributes are empty, so the verification file is listed in the sitemap | `file.merge!` (or keeping the merged hash): the item gets `is_hidden = true` | high; not executed | `Webmaster.AsWrittenAuthItem` (with `Webmaster.AsWrittenGoogleExample`) | `Webmaster.AuthItem` |

`Preprocess.Site.CreateWebmasterToolsAuthentications` models the code as
written: it appends `Webmaster.AsWrittenAuthItems`. `Webmaster.AuthItems` is
the corrected loop. `Webmaster.AsWrittenItemsMissHidden` shows that the two
differ only in the flag.

## Left out

- Nanoc's item construction is not part of this model. `Nanoc3::Item.new` normalises identifiers (for example, it adds slashes); the model stores the identifier as given.
- Rendering the sitemap body: `<%= xml_sitemap %>` is a template that Nanoc renders later. The model treats it as an opaque string.
- The regular expression engine: `/404|500|htaccess/` is a literal alternation, so the model uses three substring searches.
- Loading `config.yaml` and Ruby's dynamic typing: the configuration has a fixed shape. `robots.disallow` and `robots.allow` are lists of strings, and `robots.sitemap` is a string. Other YAML values are not modelled: they would be interpolated with `to_s`. A `robots` entry that is missing, nil or false is `None`.
- `compact` on line 73 is left out. No element of that array can be nil, because interpolating a nil sitemap gives `"Sitemap: "`.
- Aliasing: items and descriptors are values held in sequences that the methods reassign. The model does not capture Ruby objects shared with other holders of the same item or hash.
- Ruby raises an exception when `webmaster_tools` is missing or when `robots.disallow` is missing in custom mode. The model returns an `Err` result instead. A descriptor that is not a hash is not modelled.
- `RobotsTxt.CustomContentLines`: the line-by-line reading assumes that no configured path contains a line break. A path with a line break would add lines of its own.
