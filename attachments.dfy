/** The two URLs the backend gives for every stored image, in the item details and in the reply
    to an upload: the original, served as it is, and a "custom" 500 by 500 JPEG at quality 50,
    which is itself a request to the derivative-image route. */
module Attachments {
  import opened JsText
  import opened JsValues
  import opened NodePath
  import opened Derivative

  /** `path.join('item', 'image', name)` */
  function OriginalUrl(name: string): string
  {
    PathJoin(["item", "image", name])
  }

  /** `path.join("item", "image", "500X500", "50", name)` */
  function CustomUrl(name: string): string
  {
    PathJoin(["item", "image", "500X500", "50", name])
  }

  /** The `attachment_url` object: `{orignal, custom}` (the key is spelt so). */
  function AttachmentUrls(name: string): Json
  {
    JObject([("orignal", JString(OriginalUrl(name))), ("custom", JString(CustomUrl(name)))])
  }

  /** A row of the item's attachment query. */
  datatype AttachmentRow = AttachmentRow(attachmentId: Json, attachmentName: string)

  /** The item details' `attachments` list: one `{attachment_id, attachment_url}` per row, in
      the order of the rows. */
  function AttachmentList(rows: seq<AttachmentRow>): (list: seq<Json>)
    ensures |list| == |rows|
    ensures forall i :: 0 <= i < |rows| ==>
              list[i] == JObject([("attachment_id", rows[i].attachmentId),
                                  ("attachment_url", AttachmentUrls(rows[i].attachmentName))])
  {
    if rows == [] then []
    else [JObject([("attachment_id", rows[0].attachmentId),
                   ("attachment_url", AttachmentUrls(rows[0].attachmentName))])] + AttachmentList(rows[1..])
  }

  /** The ASCII lower-casing the router's case-insensitive match applies: every upper-case
      ASCII letter becomes lower-case, and every other character is kept. */
  function LowerAscii(s: string): (r: string)
    ensures |r| == |s|
    ensures forall j :: 0 <= j < |r| ==> !('A' <= r[j] <= 'Z')
    ensures forall j :: 0 <= j < |s| && !('A' <= s[j] <= 'Z') ==> r[j] == s[j]
  {
    if s == [] then []
    else [if 'A' <= s[0] <= 'Z' then (s[0] as int + 32) as char else s[0]] + LowerAscii(s[1..])
  }

  /** The characters that end a URL's path (`?` before the query, `#` before the fragment) or
      begin an escape in it (`%`). */
  predicate PathSafe(s: string)
  {
    forall j :: 0 <= j < |s| ==> s[j] != '?' && s[j] != '#' && s[j] != '%'
  }

  /** The path Express routes on: the requested URL up to its first `?` or `#`. */
  function Pathname(url: string): (p: string)
    ensures p <= url
    ensures forall j :: 0 <= j < |p| ==> p[j] != '?' && p[j] != '#'
    ensures PathSafe(url) ==> p == url
  {
    if url == [] || url[0] == '?' || url[0] == '#' then []
    else [url[0]] + Pathname(url[1..])
  }

  /** The `dimensions`, `quality` and `filename` parameters Express's router takes from a
      request path for `/item/image/:dimensions/:quality/:filename`. Routing ignores the case of
      the fixed words and allows one trailing slash; a parameter is one non-empty segment. */
  function DerivativeRoute(path: string): Option<(string, string, string)>
  {
    var segs := Split(path, {'/'});
    if (|segs| == 6 || (|segs| == 7 && segs[6] == "")) && segs[0] == "" &&
       LowerAscii(segs[1]) == "item" && LowerAscii(segs[2]) == "image" &&
       segs[3] != "" && segs[4] != "" && segs[5] != ""
    then Some((segs[3], segs[4], segs[5]))
    else None
  }

  lemma LowerAsciiOfLower(s: string)
    requires forall j :: 0 <= j < |s| ==> 'a' <= s[j] <= 'z'
    ensures LowerAscii(s) == s
  {
    if s != [] {
      LowerAsciiOfLower(s[1..]);
      assert [s[0]] + s[1..] == s;
    }
  }

  /** The URL prefixes `path.join` builds, written as single texts. */
  lemma OriginalText(name: string)
    ensures "item" + "/" + ("image" + "/" + name) == "item/image/" + name
  {
    var prefix := "item/image/";
    assert prefix == "item" + "/" + "image" + "/";
  }

  lemma CustomText(name: string)
    ensures "item" + "/" + ("image" + "/" + ("500X500" + "/" + ("50" + "/" + name))) ==
            "item/image/500X500/50/" + name
  {
    var prefix := "item/image/500X500/50/";
    assert prefix == "item" + "/" + "image" + "/" + "500X500" + "/" + "50" + "/";
  }

  lemma RouteText(name: string)
    ensures "" + "/" + ("item" + "/" + ("image" + "/" + ("500X500" + "/" + ("50" + "/" + name)))) ==
            "/item/image/500X500/50/" + name
  {
    CustomText(name);
    assert "" + "/" == "/";
    SlashText(name);
  }

  lemma SlashText(name: string)
    ensures "/" + ("item/image/500X500/50/" + name) == "/item/image/500X500/50/" + name
  {
    var prefix := "/item/image/500X500/50/";
    assert prefix == "/" + "item/image/500X500/50/";
  }

  /** For a name that is one plain path segment, the original URL is `item/image/<name>`. */
  lemma OriginalUrlPlain(name: string)
    requires PlainSegment(name)
    ensures OriginalUrl(name) == "item/image/" + name
  {
    var parts := ["item", "image", name];
    assert OriginalUrl(name) == "item" + "/" + ("image" + "/" + name) by {
      PathJoinPlain(parts);
      assert parts[1..][1..] == [name];
      assert Join(parts[1..], "/") == "image" + "/" + name;
    }
    OriginalText(name);
  }

  lemma FiveHundred()
    ensures Decimal(500) == "500" && Decimal(50) == "50"
  {
    assert DigitChar(5) == '5' && DigitChar(0) == '0';
    assert Decimal(5) == "5";
    assert Decimal(50) == Decimal(5) + [DigitChar(0)];
    assert Decimal(500) == Decimal(50) + [DigitChar(0)];
  }

  /** The segments of a custom URL joined with `/`. */
  lemma CustomJoin(name: string)
    ensures Join(["item", "image", "500X500", "50", name], "/") ==
            "item" + "/" + ("image" + "/" + ("500X500" + "/" + ("50" + "/" + name)))
  {
    var parts := ["item", "image", "500X500", "50", name];
    assert parts[1..][1..][1..][1..] == [name];
    assert Join(parts[1..][1..][1..], "/") == "50" + "/" + name;
    assert Join(parts[1..][1..], "/") == "500X500" + "/" + ("50" + "/" + name);
    assert Join(parts[1..], "/") == "image" + "/" + ("500X500" + "/" + ("50" + "/" + name));
  }

  /** For a name that is one plain path segment, the custom URL is
      `item/image/500X500/50/<name>`. */
  lemma CustomUrlPlain(name: string)
    requires PlainSegment(name)
    ensures CustomUrl(name) == "item/image/500X500/50/" + name
  {
    assert CustomUrl(name) == Join(["item", "image", "500X500", "50", name], "/") by {
      assert PlainSegment("500X500") && PlainSegment("50");
      PathJoinPlain(["item", "image", "500X500", "50", name]);
    }
    CustomJoin(name);
    CustomText(name);
  }

  /** Requested, `/item/image/500X500/50/<name>` reaches the derivative route with dimensions
      `500X500`, quality `50` and the name itself. */
  lemma CustomRoute(name: string)
    requires PlainSegment(name)
    ensures DerivativeRoute("/item/image/500X500/50/" + name) == Some(("500X500", "50", name))
  {
    CustomSegments(name);
    LowerAsciiOfLower("item");
    LowerAsciiOfLower("image");
  }

  /** The segments of a custom path are the empty text before its leading `/`, the four fixed
      words and the name. */
  lemma CustomSegments(name: string)
    requires PlainSegment(name)
    ensures Split("/item/image/500X500/50/" + name, {'/'}) == ["", "item", "image", "500X500", "50", name]
  {
    var segs := ["", "item", "image", "500X500", "50", name];
    var path := "/item/image/500X500/50/" + name;
    assert Split(path, {'/'}) == segs by {
      assert Join(segs, "/") == path by {
        assert segs[1..] == ["item", "image", "500X500", "50", name];
        CustomJoin(name);
        RouteText(name);
      }
      assert forall k :: 0 <= k < |segs| ==> '/' !in segs[k];
      SplitJoin(segs, '/');
    }
  }

  /** `500X500` at quality `50` asks for a 500 by 500 JPEG at quality 50, and for a stored
      name the route resizes it. */
  lemma CustomDecision(name: string, stored: set<string>)
    ensures DecodeDimensions("500X500") == Dimensions(Some(500), Some(500))
    ensures AcceptedQuality("50") == Some(50)
    ensures name in stored ==>
              Decide(stored, "500X500", "50", name) == Transform(Resize(name, Some(500), Some(500), 50))
  {
    FiveHundred();
    DimensionsRoundTrip(500, 500, 'X');
    assert Decimal(500) + ['X'] + Decimal(500) == "500X500";
    QualityRange(50);
    assert IntToString(50) == "50";
  }

  /** Joining two path-safe texts gives a path-safe text. */
  lemma SafeAppend(a: string, b: string)
    requires PathSafe(a) && PathSafe(b)
    ensures PathSafe(a + b)
  {
    forall j | 0 <= j < |a + b| ensures (a + b)[j] != '?' && (a + b)[j] != '#' && (a + b)[j] != '%' {
      if j >= |a| {
        assert (a + b)[j] == b[j - |a|];
      }
    }
  }

  lemma CustomPrefixSafe()
    ensures PathSafe("/item/image/500X500/50/")
  {
  }

  /** The text `/` + a custom URL is path-safe when the name is. */
  lemma CustomUrlSafe(name: string)
    requires PlainSegment(name) && PathSafe(name)
    ensures PathSafe("/" + CustomUrl(name))
  {
    CustomUrlPlain(name);
    SlashText(name);
    CustomPrefixSafe();
    SafeAppend("/item/image/500X500/50/", name);
  }

  /** The custom URL of a plain name holding no `?`, `#` or `%`, requested, is routed on as it
      is and is a resize of that name to 500 by 500 at quality 50 when the name is stored. */
  lemma CustomUrlRoundTrip(name: string, stored: set<string>)
    requires PlainSegment(name) && PathSafe(name) && name in stored
    ensures Pathname("/" + CustomUrl(name)) == "/" + CustomUrl(name)
    ensures DerivativeRoute(Pathname("/" + CustomUrl(name))) == Some(("500X500", "50", name))
    ensures Decide(stored, "500X500", "50", name) == Transform(Resize(name, Some(500), Some(500), 50))
  {
    CustomUrlSafe(name);
    CustomUrlPlain(name);
    SlashText(name);
    CustomRoute(name);
    CustomDecision(name, stored);
  }

  /** The URLs are handed out without percent-encoding: a name holding `?` or `#` is cut short
      when its custom URL is requested, so the route never sees the whole name. */
  lemma UnescapedNameCut(name: string)
    requires PlainSegment(name) && ('?' in name || '#' in name)
    ensures Pathname("/" + CustomUrl(name)) != "/" + CustomUrl(name)
  {
    CustomUrlPlain(name);
    SlashText(name);
    var prefix := "/item/image/500X500/50/";
    var url := prefix + name;
    var k :| 0 <= k < |name| && (name[k] == '?' || name[k] == '#');
    assert url[|prefix| + k] == name[k];
  }

  /** Every stored attachment in the item details whose name is plain and path-safe carries a
      custom URL that, requested with its leading `/`, is a 500 by 500 resize at quality 50 of that attachment's file. */
  lemma {:induction false} AttachmentListServes(rows: seq<AttachmentRow>, stored: set<string>, i: int)
    requires 0 <= i < |rows|
    requires PlainSegment(rows[i].attachmentName) && PathSafe(rows[i].attachmentName)
    requires rows[i].attachmentName in stored
    ensures var urls := Get(AttachmentList(rows)[i], "attachment_url");
            urls.Some? && Get(urls.value, "custom") == Some(JString(CustomUrl(rows[i].attachmentName)))
    ensures DerivativeRoute(Pathname("/" + CustomUrl(rows[i].attachmentName))) ==
              Some(("500X500", "50", rows[i].attachmentName))
    ensures Decide(stored, "500X500", "50", rows[i].attachmentName) ==
              Transform(Resize(rows[i].attachmentName, Some(500), Some(500), 50))
  {
    var name := rows[i].attachmentName;
    var urls := AttachmentUrls(name);
    assert Get(AttachmentList(rows)[i], "attachment_url") == Some(urls);
    assert Get(urls, "custom") == Some(JString(CustomUrl(name)));
    CustomUrlRoundTrip(name, stored);
  }
}
