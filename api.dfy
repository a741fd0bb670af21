/** The client's API base URL and URL builder. */
module Api {
  import opened Options
  import opened Text

  /** `v.replace(/\/+$/, "")`: drops the maximal run of trailing slashes. */
  function StripTrailingSlashes(v: string): (r: string)
    ensures r <= v
    ensures forall i :: |r| <= i < |v| ==> v[i] == '/'
    ensures r == [] || r[|r| - 1] != '/'
  {
    if v != [] && v[|v| - 1] == '/' then StripTrailingSlashes(v[..|v| - 1]) else v
  }

  /** The configured values `normalizeBase` treats as "no base". */
  predicate Unset(v: Option<string>) {
    v.None? || v.value == "" || v.value == "undefined" || v.value == "null" || Trim(v.value) == ""
  }

  /**
   * `normalizeBase`: the empty base for an unset value; otherwise the value
   * without its trailing slashes, which is a prefix of it that does not end in
   * `/`, and is the value itself when it had none.
   */
  function NormalizeBase(v: Option<string>): (r: string)
    ensures Unset(v) ==> r == ""
    ensures !Unset(v) ==> r <= v.value && (r == [] || r[|r| - 1] != '/')
    ensures !Unset(v) ==> forall i :: |r| <= i < |v.value| ==> v.value[i] == '/'
    ensures !Unset(v) && v.value[|v.value| - 1] != '/' ==> r == v.value
  {
    if Unset(v) then "" else StripTrailingSlashes(v.value)
  }

  /** A whitespace-only value is unset, since its trim is empty. */
  lemma WhitespaceIsUnset(s: string)
    requires AllWhitespace(s)
    ensures NormalizeBase(Some(s)) == ""
  {
  }

  /** `normalizeBase` is not idempotent: a second call can reject what the first
      produced. */
  lemma NormalizeBaseNotIdempotent()
    ensures NormalizeBase(Some("undefined/")) == "undefined"
    ensures NormalizeBase(Some(NormalizeBase(Some("undefined/")))) == ""
  {
    var v := "undefined/";
    assert !AllWhitespace(v) by {
      assert !IsWhitespace(v[0]);
    }
    assert v[..|v| - 1] == "undefined";
    assert !AllWhitespace("undefined") by {
      assert !IsWhitespace("undefined"[0]);
    }
    assert StripTrailingSlashes("undefined") == "undefined";
  }

  predicate StartsWithSlash(p: string) {
    p != [] && p[0] == '/'
  }

  /**
   * `apiUrl(p)` with `raw` the configured base: the base followed by a path that
   * begins with `/` and ends with `p`; `p` itself when it already begins with `/`,
   * else `/` followed by `p`.
   */
  function ApiUrl(raw: Option<string>, p: string): (r: string)
    ensures var base := NormalizeBase(raw);
      |base| < |r| && |p| <= |r| && r[..|base|] == base && r[|base|] == '/'
      && r[|r| - |p|..] == p
      && (StartsWithSlash(p) ==> r == base + p)
      && (!StartsWithSlash(p) ==> r == base + "/" + p)
  {
    var base := NormalizeBase(raw);
    JoinShape(base, p);
    base + (if StartsWithSlash(p) then p else "/" + p)
  }

  /** The shape of a base followed by a slash-led path. */
  lemma JoinShape(base: string, p: string)
    ensures var r := base + (if StartsWithSlash(p) then p else "/" + p);
      |base| < |r| && |p| <= |r| && r[..|base|] == base && r[|base|] == '/'
      && r[|r| - |p|..] == p
      && (StartsWithSlash(p) ==> r == base + p)
      && (!StartsWithSlash(p) ==> r == base + "/" + p)
  {
    var path := if StartsWithSlash(p) then p else "/" + p;
    assert path[0] == '/' && path[|path| - |p|..] == p;
    var r := base + path;
    assert r[..|base|] == base && r[|base|..] == path;
    assert r[|r| - |p|..] == path[|path| - |p|..];
    assert !StartsWithSlash(p) ==> r == base + "/" + p;
  }
}
