/** The pure part of `create_robots_txt`: the text of robots.txt and the item that carries it. */
module RobotsTxt {
  import opened Items
  import opened Config
  import Text

  /** The policy used when `robots.default` is truthy: hide assets except images, point to the sitemap. */
  const DefaultText: string :=
    "User-agent: *" + "\n" + "Disallow: /assets" + "\n" + "Allow: /assets/images" + "\n" + "Sitemap: /sitemap.xml"

  /** `paths.map { |l| "#{keyword}#{l}" }`: one directive per path, in order. */
  function Directives(keyword: string, paths: seq<string>): (r: seq<string>)
    ensures |r| == |paths|
    ensures forall i :: 0 <= i < |paths| ==> r[i] == keyword + paths[i]
  {
    if paths == [] then [] else [keyword + paths[0]] + Directives(keyword, paths[1..])
  }

  /** `(allow || [])`: a missing `allow` list contributes nothing. */
  function AllowList(allow: Option<seq<string>>): seq<string> {
    if allow.Some? then allow.value else []
  }

  /** `"#{sitemap}"`: interpolating nil gives the empty string. */
  function Interpolated(sitemap: Option<string>): string {
    if sitemap.Some? then sitemap.value else ""
  }

  /** The array of lines in custom mode, before `flatten.compact.join("\n")`. */
  function CustomLines(disallow: seq<string>, allow: Option<seq<string>>, sitemap: Option<string>): (r: seq<string>)
    ensures |r| == 2 + |disallow| + |AllowList(allow)|
    ensures r[0] == "User-Agent: *"
    ensures forall i :: 0 <= i < |disallow| ==> r[1 + i] == "Disallow: " + disallow[i]
    ensures forall i :: 0 <= i < |AllowList(allow)| ==>
      r[1 + |disallow| + i] == "Allow: " + AllowList(allow)[i]
    ensures r[|r| - 1] == "Sitemap: " + Interpolated(sitemap)
  {
    ["User-Agent: *"] + Directives("Disallow: ", disallow) + Directives("Allow: ", AllowList(allow))
      + ["Sitemap: " + Interpolated(sitemap)]
  }

  /**
   * The `content` expression of `create_robots_txt`: the fixed policy when
   * `default` is truthy, otherwise the custom lines joined by newlines; a
   * custom policy without a `disallow` list raises.
   */
  function Content(robots: Robots): (c: Result<string>)
    ensures c.Err? <==> !Truthy(robots.default) && robots.disallow.None?
    ensures c.Err? ==> c.error == NilDisallow
    ensures Truthy(robots.default) ==> c == Ok(DefaultText)
    ensures !Truthy(robots.default) && robots.disallow.Some? ==>
      c == Ok(Text.JoinLines(CustomLines(robots.disallow.value, robots.allow, robots.sitemap)))
  {
    if Truthy(robots.default) then Ok(DefaultText)
    else if robots.disallow.None? then Err(NilDisallow)
    else Ok(Text.JoinLines(CustomLines(robots.disallow.value, robots.allow, robots.sitemap)))
  }

  /** The item appended to the collection: hidden from the sitemap, written as `/robots/`. */
  function RobotsItem(text: string): Item {
    Item(Str(text), map["extension" := Str("txt"), "is_hidden" := Bool(true)], Str("/robots/"))
  }

  /** No path of the configuration holds a line break. */
  predicate SingleLinePaths(robots: Robots) {
    && (robots.disallow.Some? ==> forall p :: p in robots.disallow.value ==> '\n' !in p)
    && (robots.allow.Some? ==> forall p :: p in robots.allow.value ==> '\n' !in p)
    && (robots.sitemap.Some? ==> '\n' !in robots.sitemap.value)
  }

  /**
   * In custom mode the text is exactly the lines `User-Agent: *`, one
   * `Disallow:` per disallowed path, one `Allow:` per allowed path and
   * `Sitemap:`, in that order: 2 + |disallow| + |allow| lines, none of them
   * blank, and no newline at the end.
   */
  lemma CustomContentLines(robots: Robots)
    requires !Truthy(robots.default) && robots.disallow.Some?
    requires SingleLinePaths(robots)
    ensures Content(robots).Ok?
    ensures var text, lines := Content(robots).value, Text.SplitLines(Content(robots).value);
      && lines == CustomLines(robots.disallow.value, robots.allow, robots.sitemap)
      && |lines| == 2 + |robots.disallow.value| + |AllowList(robots.allow)|
      && (forall k :: 0 <= k < |lines| ==> lines[k] != "")
      && 0 < |text| && text[|text| - 1] != '\n'
  {
    var d, a := robots.disallow.value, AllowList(robots.allow);
    var lines := CustomLines(d, robots.allow, robots.sitemap);
    forall l | l in lines
      ensures '\n' !in l && l != ""
    {
      var k :| 0 <= k < |lines| && lines[k] == l;
      if k == 0 {
      } else if k <= |d| {
        assert d[k - 1] in d;
      } else if k <= |d| + |a| {
        assert a[k - 1 - |d|] in a;
      }
    }
    Text.SplitJoin(lines);
    Text.JoinLinesEndsWithLast(lines);
    var last := lines[|lines| - 1];
    var text := Text.JoinLines(lines);
    assert last in lines;
    assert text[|text| - 1] == text[|text| - |last|..][|last| - 1] == last[|last| - 1];
    assert last[|last| - 1] in last;
  }

  /** The default policy reads as four lines. */
  lemma DefaultContentLines()
    ensures Text.SplitLines(DefaultText) ==
      ["User-agent: *", "Disallow: /assets", "Allow: /assets/images", "Sitemap: /sitemap.xml"]
  {
    var lines := ["User-agent: *", "Disallow: /assets", "Allow: /assets/images", "Sitemap: /sitemap.xml"];
    assert lines[1..][1..] == lines[2..] && lines[2..][1..] == lines[3..];
    assert Text.JoinLines(lines[3..]) == "Sitemap: /sitemap.xml";
    assert Text.JoinLines(lines) == DefaultText;
    Text.SplitJoin(lines);
  }

  /** A custom policy without `allow` leaves no blank line where the allowed paths would be. */
  lemma CustomWithoutAllowExample()
    ensures Content(Robots(Bool(false), Some(["/admin"]), None, Some("/sitemap.xml")))
      == Ok("User-Agent: *" + "\n" + "Disallow: /admin" + "\n" + "Sitemap: /sitemap.xml")
  {
    var lines := CustomLines(["/admin"], None, Some("/sitemap.xml"));
    assert |lines| == 3 && lines[1] == "Disallow: /admin" && lines[2] == "Sitemap: /sitemap.xml";
    assert lines == ["User-Agent: *", "Disallow: /admin", "Sitemap: /sitemap.xml"];
    assert lines[1..][1..] == lines[2..];
    assert Text.JoinLines(lines[2..]) == "Sitemap: /sitemap.xml";
    assert Text.JoinLines(lines[1..]) == "Disallow: /admin" + "\n" + "Sitemap: /sitemap.xml";
    assert Text.JoinLines(lines) == "User-Agent: *" + "\n" + ("Disallow: /admin" + "\n" + "Sitemap: /sitemap.xml");
    assert Content(Robots(Bool(false), Some(["/admin"]), None, Some("/sitemap.xml"))) == Ok(Text.JoinLines(lines));
    var agent, disallow, sitemap := "User-Agent: *", "Disallow: /admin", "Sitemap: /sitemap.xml";
    assert agent + "\n" + (disallow + "\n" + sitemap) == agent + "\n" + disallow + "\n" + sitemap;
  }
}
