/** Turning what a user typed (a URL or a bare token) into a video identifier. */
module VideoId {
  import opened GoStrings

  /** What `url.ParseRequestURI` gives for an input it accepts, reduced to the two parts
      the extractor reads: `Query().Get("v")` ("" when there is no `v`) and the path. */
  datatype Uri = Uri(queryV: string, path: string)

  /** `url.ParseRequestURI` is library code; the model takes it as a parameter, a partial
      function from the raw input to its parsed form (None for a parse error). */
  type UriParser = string -> Option<Uri>

  /** The heuristic for inputs that are not request URIs: keep what follows the last
      `v=`, then what follows the last `/`. */
  function Fallback(v: string): string {
    var v := if Contains(v, "v=") then Last(Split(v, "v=")) else v;
    if Contains(v, "/") then Last(Split(v, "/")) else v
  }

  /** ExtractVideoID: the `v` query value when the input parses and has a non-empty one,
      the last path segment when it parses without one, the fallback heuristic otherwise. */
  function ExtractVideoID(parse: UriParser, v: string): string {
    match parse(v)
    case Some(u) =>
      if |u.queryV| > 0 then u.queryV
      else Last(Split(u.path, "/"))
    case None => Fallback(v)
  }

  /** A parsed input with a non-empty `v` query value yields that value verbatim; without
      one, the text after the last `/` of the path (empty when the path ends in `/`). */
  lemma {:induction false} UriBranch(parse: UriParser, v: string, u: Uri)
    requires parse(v) == Some(u)
    ensures |u.queryV| > 0 ==> ExtractVideoID(parse, v) == u.queryV
    ensures u.queryV == "" ==>
              var id := ExtractVideoID(parse, v);
              HasSuffix(u.path, id) && !Contains(id, "/") &&
              (Contains(u.path, "/") ==> HasSuffix(u.path, "/" + id)) &&
              (!Contains(u.path, "/") ==> id == u.path)
  {
    LastPiece(u.path, "/");
  }

  /** The fallback result is a suffix of the input that contains neither `/` nor `v=`. */
  lemma {:induction false} FallbackIsCleanSuffix(v: string)
    ensures HasSuffix(v, Fallback(v))
    ensures !Contains(Fallback(v), "/") && !Contains(Fallback(v), "v=")
  {
    var w := if Contains(v, "v=") then Last(Split(v, "v=")) else v;
    if Contains(v, "v=") {
      LastPiece(v, "v=");
    } else {
      assert v[|v| - |v|..] == v;
    }
    assert HasSuffix(v, w) && !Contains(w, "v=");
    if Contains(w, "/") {
      LastPiece(w, "/");
      SuffixOfSuffix(v, w, Fallback(v));
      SuffixKeepsAbsence(w, Fallback(v), "v=");
    }
  }

  /** An input with neither `v=` nor `/` that does not parse is returned unchanged. */
  lemma FallbackKeepsPlainToken(parse: UriParser, v: string)
    requires parse(v).None? && !Contains(v, "v=") && !Contains(v, "/")
    ensures ExtractVideoID(parse, v) == v
  {
  }

  /** A request URI without a `v` query value whose path is `/` followed by a token without `/`
      yields that token, whatever the host: the short link form `https://youtu.be/<id>`. */
  lemma ShortLink(parse: UriParser, v: string, id: string)
    requires parse(v) == Some(Uri("", "/" + id))
    requires !Contains(id, "/")
    ensures ExtractVideoID(parse, v) == id
  {
    var path := "/" + id;
    assert path == [] + path;
    SuffixOfConcat([], path);
    LastPieceUnique(path, "/", id);
  }

  /** The documented inputs `https://youtu.be/b8g1o8Ph7LQ` and
      `https://www.youtube.com/watch?v=b8g1o8Ph7LQ`, as `url.ParseRequestURI` parses them. */
  lemma DocumentedUrls(parse: UriParser, id: string, short: string, watch: string)
    requires id == "b8g1o8Ph7LQ"
    requires short == "https://youtu.be/" + id && parse(short) == Some(Uri("", "/" + id))
    requires watch == "https://www.youtube.com/watch?v=" + id
    requires parse(watch) == Some(Uri(id, "/watch"))
    ensures ExtractVideoID(parse, short) == id
    ensures ExtractVideoID(parse, watch) == id
  {
    AbsentFirstChar(id, "/");
    ShortLink(parse, short, id);
  }

  /** The documented bare token `b8g1o8Ph7LQ`, which `url.ParseRequestURI` rejects. */
  lemma DocumentedToken(parse: UriParser, v: string)
    requires v == "b8g1o8Ph7LQ" && parse(v).None?
    ensures ExtractVideoID(parse, v) == v
  {
    AbsentFirstChar(v, "/");
    AbsentFirstChar(v, "v=");
  }

  /** An input that is not a request URI and ends in `/` followed by a token without `/`
      or `v=` yields that token, whatever precedes the `/` (a `v=` there included): the
      scheme-less short link `youtu.be/b8g1o8Ph7LQ` is one such input, and so is
      `watch?v=abc/def`, which yields `def`. */
  lemma FallbackAfterLastSlash(parse: UriParser, a: string, id: string)
    requires parse(a + "/" + id).None?
    requires !Contains(id, "/") && !Contains(id, "v=")
    ensures ExtractVideoID(parse, a + "/" + id) == id
  {
    var v := a + "/" + id;
    var w := if Contains(v, "v=") then Last(Split(v, "v=")) else v;
    if Contains(v, "v=") {
      LastPiece(v, "v=");
      LastVBeforeSlash(a, id, w);
    } else {
      assert v == a + ("/" + id);
      SuffixOfConcat(a, "/" + id);
    }
    LastPieceUnique(w, "/", id);
    LastPiece(w, "/");
  }

  /** Helper of FallbackAfterLastSlash: when `id` has no `v=`, a `v=` that begins a
      suffix of `a + "/" + id` lies inside `a`, so what follows it still ends in
      `"/" + id`. */
  lemma LastVBeforeSlash(a: string, id: string, w: string)
    requires !Contains(id, "v=") && HasSuffix(a + "/" + id, "v=" + w)
    ensures HasSuffix(w, "/" + id)
  {
    var v := a + "/" + id;
    var p := |v| - |w| - 2;
    assert v[p..] == "v=" + w;
    assert v[p] == 'v' && v[p + 1] == '=' && v[|a|] == '/';
    if p >= |a| + 1 {
      var q := p - |a| - 1;
      assert id[q..q + 2] == v[p..p + 2] == "v=";
      assert OccursAt(id, "v=", q);
    } else {
      assert w == v[p + 2..];
      assert w[|w| - |id| - 1..] == v[|a|..] == "/" + id;
    }
  }

  /** An input that is not a request URI and ends in `v=` followed by a token without `/`
      or `v=` yields that token, whatever precedes it: the scheme-less watch link
      `www.youtube.com/watch?v=b8g1o8Ph7LQ` is one such input. */
  lemma FallbackAfterLastV(parse: UriParser, a: string, id: string)
    requires parse(a + "v=" + id).None?
    requires !Contains(id, "/") && !Contains(id, "v=")
    ensures ExtractVideoID(parse, a + "v=" + id) == id
  {
    var v := a + "v=" + id;
    assert v == a + ("v=" + id);
    SuffixOfConcat(a, "v=" + id);
    LastPieceUnique(v, "v=", id);
    LastPiece(v, "v=");
  }
}
