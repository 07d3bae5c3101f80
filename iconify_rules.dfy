/**
 * The decision logic of the Iconify client, with every HTTP response and
 * every collection index given as a value: how a prefix is looked up, how
 * an icon response becomes an `Icon` or an error, how an SVG response is
 * accepted, and how the request paths are built.
 */
module IconifyRules {
  import opened Wrappers
  import opened Text

  /** The distinguishable failures the client surfaces to its caller. */
  datatype Error =
    | PrefixMissing           // metadataFor: the prefix is not in the collection index
    | IconNotFound            // unknown prefix, unparsable response, missing body, or not SVG
    | MissingDimensions       // the icon exists but no width or height can be resolved
    | CollectionsUnavailable  // fetching or decoding the collection index threw
    | TransportError          // the icon request failed below the JSON layer (status, network)

  datatype Result<+T> = Ok(value: T) | Err(error: Error)

  /** The attributes of one icon set that the client reads: its default dimensions. */
  datatype Meta = Meta(width: Option<nat>, height: Option<nat>)

  /** The collection index: icon-set prefix to that set's metadata. */
  type Index = map<string, Meta>

  /** One entry of `icons` in a metadata response; `None` is an absent or null key. */
  datatype IconRec = IconRec(body: Option<string>, width: Option<nat>, height: Option<nat>)

  /**
   * The outcome of decoding a metadata response body: the `icons` object
   * (empty when the key is absent), or a body that is not a JSON object.
   */
  datatype JsonBody = Decoded(icons: map<string, IconRec>) | Undecodable

  /** A response as the HTTP layer delivers it, or a failure of that layer. */
  datatype Transport<+T> = Received(body: T) | TransportFailed

  /** The value handed to the caller: inner SVG markup and the `<svg>` attributes. */
  datatype Icon = Icon(body: string, attributes: map<string, string>)

  const CollectionsPath: string := "/collections"
  const JsonQuery: string := ".json?icons="
  const SvgSuffix: string := ".svg"
  const SvgMarker: string := "<svg"

  // ---------------------------------------------------------------------
  // Request paths
  // ---------------------------------------------------------------------

  /** Path of the icon-metadata request, by plain concatenation with no encoding. */
  function JsonPath(prefix: string, name: string): (path: string)
  {
    "/" + prefix + JsonQuery + name
  }

  /** Path of the raw-SVG request, by plain concatenation with no encoding. */
  function SvgPath(prefix: string, name: string): (path: string)
  {
    "/" + prefix + "/" + name + SvgSuffix
  }

  /** Recovers prefix and name from a metadata path: the prefix ends at the first '.'. */
  function SplitJsonPath(path: string): (parts: Option<(string, string)>)
  {
    if path == [] || path[0] != '/' then None
    else
      var rest := path[1..];
      match IndexOf(rest, '.')
      case None => None
      case Some(i) =>
        if StartsWith(rest[i..], JsonQuery) then Some((rest[..i], rest[i + |JsonQuery|..]))
        else None
  }

  /** Recovers prefix and name from an SVG path: the prefix ends at the first '/'. */
  function SplitSvgPath(path: string): (parts: Option<(string, string)>)
  {
    if path == [] || path[0] != '/' then None
    else
      var rest := path[1..];
      match IndexOf(rest, '/')
      case None => None
      case Some(i) =>
        var tail := rest[i + 1..];
        if |tail| >= |SvgSuffix| && tail[|tail| - |SvgSuffix|..] == SvgSuffix then
          Some((rest[..i], tail[..|tail| - |SvgSuffix|]))
        else None
  }

  /** For any prefix without a '.', the metadata path names exactly that prefix and that name. */
  lemma JsonPathRoundTrip(prefix: string, name: string)
    requires '.' !in prefix
    ensures SplitJsonPath(JsonPath(prefix, name)) == Some((prefix, name))
  {
    var path := JsonPath(prefix, name);
    var rest := path[1..];
    assert rest == prefix + ['.'] + (JsonQuery[1..] + name);
    IndexOfAfter(prefix, '.', JsonQuery[1..] + name);
    assert rest[|prefix|..] == JsonQuery + name;
    assert rest[..|prefix|] == prefix;
    assert rest[|prefix| + |JsonQuery|..] == name;
  }

  /** For any prefix without a '/', the SVG path names exactly that prefix and that name. */
  lemma SvgPathRoundTrip(prefix: string, name: string)
    requires '/' !in prefix
    ensures SplitSvgPath(SvgPath(prefix, name)) == Some((prefix, name))
  {
    var path := SvgPath(prefix, name);
    var rest := path[1..];
    assert rest == prefix + ['/'] + (name + SvgSuffix);
    IndexOfAfter(prefix, '/', name + SvgSuffix);
    var tail := rest[|prefix| + 1..];
    assert tail == name + SvgSuffix;
    assert rest[..|prefix|] == prefix;
    assert tail[..|tail| - |SvgSuffix|] == name;
  }

  /** Nothing is escaped: a '/' inside a prefix or a name makes two requests share one path. */
  lemma SvgPathUnescaped()
    ensures SvgPath("a/b", "c") == SvgPath("a", "b/c")
    ensures JsonPath("a", ".json?icons=b") == JsonPath("a.json?icons=", "b")
  {
  }

  // ---------------------------------------------------------------------
  // Dimensions and the viewBox
  // ---------------------------------------------------------------------

  /** The first known value of a fallback chain: an independent reading of nested `??`. */
  function FirstKnown(chain: seq<Option<nat>>): (r: Option<nat>)
    ensures r.None? <==> forall i :: 0 <= i < |chain| ==> chain[i].None?
    ensures r.Some? ==> exists i :: 0 <= i < |chain| && chain[i] == r
  {
    if chain == [] then None
    else if chain[0].Some? then chain[0]
    else
      var r := FirstKnown(chain[1..]);
      assert forall i :: 1 <= i < |chain| ==> chain[i] == chain[1..][i - 1];
      r
  }

  /** Two nested `??` pairs read the same as a four-step fallback chain. */
  lemma FirstKnownOfFour(a: Option<nat>, b: Option<nat>, c: Option<nat>, d: Option<nat>)
    ensures FirstKnown([a, b, c, d]) == Coalesce(Coalesce(a, b), Coalesce(c, d))
  {
    var chain := [a, b, c, d];
    assert chain[1..] == [b, c, d];
    assert [b, c, d][1..] == [c, d];
    assert [c, d][1..] == [d];
    assert [d][1..] == [];
    assert FirstKnown([d]) == d;
    assert FirstKnown([c, d]) == Coalesce(c, d);
    assert FirstKnown([b, c, d]) == Coalesce(b, Coalesce(c, d));
  }

  /** `sprintf('0 0 %s %s', $width, $height)` for integer dimensions. */
  function ViewBox(width: nat, height: nat): (vb: string)
  {
    "0 0 " + NatToString(width) + " " + NatToString(height)
  }

  /** Reads width and height back from a viewBox of the form "0 0 W H". */
  function ParseViewBox(s: string): (dims: Option<(nat, nat)>)
  {
    if !StartsWith(s, "0 0 ") then None
    else
      var rest := s[4..];
      match IndexOf(rest, ' ')
      case None => None
      case Some(i) =>
        var w, h := rest[..i], rest[i + 1..];
        if w == [] || h == [] || !AllDigits(w) || !AllDigits(h) then None
        else Some((StringToNat(w), StringToNat(h)))
  }

  /** The viewBox carries both dimensions and nothing else can be read into it. */
  lemma ParseViewBoxOfViewBox(width: nat, height: nat)
    ensures ParseViewBox(ViewBox(width, height)) == Some((width, height))
  {
    var s := ViewBox(width, height);
    var ws, hs := NatToString(width), NatToString(height);
    assert s[..4] == "0 0 ";
    var rest := s[4..];
    assert rest == ws + [' '] + hs;
    IndexOfAfter(ws, ' ', hs);
    assert rest[..|ws|] == ws;
    assert rest[|ws| + 1..] == hs;
    StringToNatOfNatToString(width);
    StringToNatOfNatToString(height);
  }

  /** Different dimensions give different viewBox strings. */
  lemma ViewBoxInjective(w1: nat, h1: nat, w2: nat, h2: nat)
    requires ViewBox(w1, h1) == ViewBox(w2, h2)
    ensures w1 == w2 && h1 == h2
  {
    ParseViewBoxOfViewBox(w1, h1);
    ParseViewBoxOfViewBox(w2, h2);
  }

  // ---------------------------------------------------------------------
  // The three operations, given the collection index and the response
  // ---------------------------------------------------------------------

  /** `metadataFor`: the stored entry for the prefix, or an error. */
  function MetadataFor(index: Index, prefix: string): (r: Result<Meta>)
  {
    if prefix in index then Ok(index[prefix]) else Err(PrefixMissing)
  }

  lemma MetadataForSpec(index: Index, prefix: string)
    ensures MetadataFor(index, prefix).Ok? <==> prefix in index
    ensures prefix in index ==> MetadataFor(index, prefix).value == index[prefix]
    ensures prefix !in index ==> MetadataFor(index, prefix).error == PrefixMissing
  {
  }

  /** `fetchIcon`, from the collection index and the reply to the metadata request. */
  function FetchIcon(index: Index, prefix: string, name: string, reply: Transport<JsonBody>): (r: Result<Icon>)
  {
    if prefix !in index then Err(IconNotFound)
    else match reply
      case TransportFailed => Err(TransportError)
      case Received(Undecodable) => Err(IconNotFound)
      case Received(Decoded(icons)) =>
        if name !in icons || icons[name].body.None? then Err(IconNotFound)
        else
          var rec, meta := icons[name], index[prefix];
          var height := Coalesce(rec.height, meta.height);
          var width := Coalesce(rec.width, meta.width);
          if width.None? && height.None? then Err(MissingDimensions)
          else
            var vb := ViewBox(Coalesce(width, height).value, Coalesce(height, width).value);
            Ok(Icon(rec.body.value, map["viewBox" := vb]))
  }

  /** The fallback chain for the width: icon, set default, then the height's own chain. */
  function WidthChain(rec: IconRec, meta: Meta): (chain: seq<Option<nat>>)
  {
    [rec.width, meta.width, rec.height, meta.height]
  }

  /** The fallback chain for the height: icon, set default, then the width's own chain. */
  function HeightChain(rec: IconRec, meta: Meta): (chain: seq<Option<nat>>)
  {
    [rec.height, meta.height, rec.width, meta.width]
  }

  /**
   * Once the prefix is known and the icon's body is present, `fetchIcon`
   * succeeds exactly when some dimension is known; the body is passed on
   * unchanged, the only attribute is the viewBox, and its width and height
   * are the first known values of the two fallback chains.
   */
  lemma FetchIconFound(index: Index, prefix: string, name: string, icons: map<string, IconRec>)
    requires prefix in index && name in icons && icons[name].body.Some?
    ensures var r := FetchIcon(index, prefix, name, Received(Decoded(icons)));
            var w := FirstKnown(WidthChain(icons[name], index[prefix]));
            var h := FirstKnown(HeightChain(icons[name], index[prefix]));
            && (r.Ok? <==> w.Some?)
            && (w.Some? <==> h.Some?)
            && (r.Err? ==> r.error == MissingDimensions)
            && (r.Ok? ==> && r.value.body == icons[name].body.value
                          && r.value.attributes.Keys == {"viewBox"}
                          && w.Some? && h.Some?
                          && r.value.attributes["viewBox"] == ViewBox(w.value, h.value)
                          && ParseViewBox(r.value.attributes["viewBox"]) == Some((w.value, h.value)))
  {
    var rec, meta := icons[name], index[prefix];
    var width := Coalesce(rec.width, meta.width);
    var height := Coalesce(rec.height, meta.height);
    FirstKnownOfFour(rec.width, meta.width, rec.height, meta.height);
    FirstKnownOfFour(rec.height, meta.height, rec.width, meta.width);
    var r := FetchIcon(index, prefix, name, Received(Decoded(icons)));
    if r.Ok? {
      ParseViewBoxOfViewBox(Coalesce(width, height).value, Coalesce(height, width).value);
    }
  }

  /** With only one dimension known the icon is square. */
  lemma FetchIconSquare(index: Index, prefix: string, name: string, icons: map<string, IconRec>, d: nat)
    requires prefix in index && name in icons && icons[name].body.Some?
    requires var rec, meta := icons[name], index[prefix];
             || (Coalesce(rec.width, meta.width) == Some(d) && Coalesce(rec.height, meta.height).None?)
             || (Coalesce(rec.height, meta.height) == Some(d) && Coalesce(rec.width, meta.width).None?)
    ensures FetchIcon(index, prefix, name, Received(Decoded(icons)))
            == Ok(Icon(icons[name].body.value, map["viewBox" := ViewBox(d, d)]))
  {
  }

  /** Each dimension is resolved on its own: the icon's value wins over the set default. */
  lemma FetchIconOwnDimensionWins(index: Index, prefix: string, name: string, icons: map<string, IconRec>)
    requires prefix in index && name in icons && icons[name].body.Some?
    requires icons[name].width.Some? && icons[name].height.Some?
    ensures FetchIcon(index, prefix, name, Received(Decoded(icons)))
            == Ok(Icon(icons[name].body.value,
                       map["viewBox" := ViewBox(icons[name].width.value, icons[name].height.value)]))
  {
  }

  /**
   * `fetchIcon` fails with IconNotFound exactly for an unknown prefix, a
   * body that is not JSON, or a response without a body for the name; and
   * with TransportError exactly when the request itself failed.
   */
  lemma FetchIconErrors(index: Index, prefix: string, name: string, reply: Transport<JsonBody>)
    ensures FetchIcon(index, prefix, name, reply) == Err(IconNotFound) <==>
            || prefix !in index
            || reply == Received(Undecodable)
            || (reply.Received? && reply.body.Decoded?
                && (name !in reply.body.icons || reply.body.icons[name].body.None?))
    ensures FetchIcon(index, prefix, name, reply) == Err(TransportError) <==>
            prefix in index && reply.TransportFailed?
  {
  }

  /** An unknown prefix fails before the reply is looked at: no reply changes the outcome. */
  lemma UnknownPrefixIgnoresReply(index: Index, prefix: string, name: string,
                                  r1: Transport<JsonBody>, r2: Transport<JsonBody>,
                                  s1: Transport<string>, s2: Transport<string>)
    requires prefix !in index
    ensures FetchIcon(index, prefix, name, r1) == FetchIcon(index, prefix, name, r2) == Err(IconNotFound)
    ensures FetchSvg(index, prefix, name, s1) == FetchSvg(index, prefix, name, s2) == Err(IconNotFound)
  {
  }

  /** `fetchSvg`, from the collection index and the reply to the SVG request. */
  function FetchSvg(index: Index, prefix: string, name: string, reply: Transport<string>): (r: Result<string>)
  {
    if prefix !in index then Err(IconNotFound)
    else match reply
      case TransportFailed => Err(TransportError)
      case Received(content) =>
        if !StartsWith(content, SvgMarker) then Err(IconNotFound) else Ok(content)
  }

  /** `fetchSvg` returns the content unchanged if and only if it starts with `<svg`. */
  lemma FetchSvgSpec(index: Index, prefix: string, name: string, reply: Transport<string>, content: string)
    ensures FetchSvg(index, prefix, name, reply) == Ok(content) <==>
            prefix in index && reply == Received(content) && StartsWith(content, SvgMarker)
    ensures FetchSvg(index, prefix, name, reply).Err? ==>
            FetchSvg(index, prefix, name, reply).error ==
              (if prefix in index && reply.TransportFailed? then TransportError else IconNotFound)
  {
  }
}
