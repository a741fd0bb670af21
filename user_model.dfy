/**
 * The user schema: the setters applied on save (trim, lowercase), the
 * validators (name length, email pattern, password length), and the `toJSON`
 * transform that hides secrets.
 */
module UserModel {
  import opened Options
  import opened Text

  const NameMinLength: nat := 2
  const NameMaxLength: nat := 64
  const PasswordMinLength: nat := 6

  /** A stored user document; `password` holds whatever was saved in that field. */
  datatype User = User(id: string, name: string, email: string, password: string)

  /** Email values are trimmed, then lowercased. */
  function NormalizeEmail(e: string): (r: string)
    ensures |r| <= |e|
    ensures r == [] <==> AllWhitespace(e)
  {
    Lower(Trim(e))
  }

  /** Normalising twice is normalising once: a stored email looks itself up. */
  lemma NormalizeEmailIdempotent(e: string)
    ensures NormalizeEmail(NormalizeEmail(e)) == NormalizeEmail(e)
  {
    var t := Trim(e);
    var l := Lower(t);
    if l != [] {
      LowerKeepsWhitespace(t[0]);
      LowerKeepsWhitespace(t[|t| - 1]);
    }
    TrimNoOp(l);
    LowerIdempotent(t);
  }

  /** The document a `new UserModel({name, email, password})` holds after its setters ran. */
  function Cast(id: string, name: string, email: string, password: string): User {
    User(id, Trim(name), NormalizeEmail(email), password)
  }

  /** `\w` without the `u` flag. */
  predicate IsWordChar(c: char) {
    'a' <= c <= 'z' || 'A' <= c <= 'Z' || '0' <= c <= '9' || c == '_'
  }

  predicate IsLocalChar(c: char) {
    IsWordChar(c) || c == '.' || c == '-'
  }

  predicate IsLabelChar(c: char) {
    IsWordChar(c) || c == '-'
  }

  predicate AllLabelChars(s: string) {
    forall i :: 0 <= i < |s| ==> IsLabelChar(s[i])
  }

  /** The first index of `c` in `s`, or -1. */
  function IndexOfChar(s: string, c: char): (r: int)
    ensures r == -1 ==> c !in s
    ensures r != -1 ==> 0 <= r < |s| && s[r] == c && c !in s[..r]
  {
    if s == [] then -1
    else if s[0] == c then 0
    else
      var r := IndexOfChar(s[1..], c);
      assert s == [s[0]] + s[1..];
      assert r != -1 ==> s[..r + 1] == [s[0]] + s[1..][..r];
      if r == -1 then -1 else r + 1
  }

  /** `([\w-]+\.)+[\w-]{2,}`: dot-separated labels, at least two, the last one of
      two or more characters. */
  predicate ValidDomain(d: string): (b: bool)
    decreases |d|
    ensures b ==> '.' in d && IsLabelChar(d[0]) && IsLabelChar(d[|d| - 1])
  {
    var j := IndexOfChar(d, '.');
    0 < j && AllLabelChars(d[..j])
    && var rest := d[j + 1..];
       (2 <= |rest| && AllLabelChars(rest)) || ValidDomain(rest)
  }

  /** `/^([\w.-]+@([\w-]+\.)+[\w-]{2,})$/`. */
  predicate ValidEmail(e: string): (b: bool)
    ensures b ==> '@' in e && IsLocalChar(e[0]) && IsLabelChar(e[|e| - 1])
  {
    var k := IndexOfChar(e, '@');
    0 < k && (forall i :: 0 <= i < k ==> IsLocalChar(e[i])) && ValidDomain(e[k + 1..])
  }

  /** Every validator of the schema, applied to a document after its setters. */
  predicate Valid(u: User) {
    NameMinLength <= |u.name| <= NameMaxLength
    && ValidEmail(u.email)
    && PasswordMinLength <= |u.password|
  }

  /** A saved document's email is trimmed and lowercase, and its name trimmed. */
  lemma CastIsNormalized(id: string, name: string, email: string, password: string)
    ensures NormalizeEmail(Cast(id, name, email, password).email) == Cast(id, name, email, password).email
    ensures Trim(Cast(id, name, email, password).name) == Cast(id, name, email, password).name
  {
    NormalizeEmailIdempotent(email);
    var t := Trim(name);
    assert t == [] || (!IsWhitespace(t[0]) && !IsWhitespace(t[|t| - 1]));
    TrimNoOp(t);
  }

  /** The first `c` of `s` is at `k`. */
  lemma IndexOfCharIs(s: string, c: char, k: nat)
    requires k < |s| && s[k] == c && forall i :: 0 <= i < k ==> s[i] != c
    ensures IndexOfChar(s, c) == k
  {
    assert s[k] in s;
    assert c !in s[..k];
  }

  lemma AcceptedDomain()
    ensures ValidDomain("x.com")
  {
    var d := "x.com";
    IndexOfCharIs(d, '.', 1);
    assert d[..1] == "x" && d[2..] == "com";
    assert AllLabelChars("x") && AllLabelChars("com");
  }

  /** An address is a non-empty local part, `@`, and a valid domain. */
  lemma ValidEmailParts(local: string, domain: string)
    requires local != [] && forall i :: 0 <= i < |local| ==> IsLocalChar(local[i])
    requires ValidDomain(domain)
    ensures ValidEmail(local + "@" + domain)
  {
    var e := local + "@" + domain;
    IndexOfCharIs(e, '@', |local|);
    assert e[|local| + 1..] == domain;
  }

  lemma AcceptedEmail()
    ensures ValidEmail("jane@x.com")
  {
    AcceptedDomain();
    ValidEmailParts("jane", "x.com");
    assert "jane" + "@" + "x.com" == "jane@x.com";
  }

  /** A domain needs a dot: the label before it is not enough. */
  lemma RejectedEmailWithoutDot()
    ensures !ValidEmail("jane@x")
  {
    var e := "jane@x";
    IndexOfCharIs(e, '@', 4);
    assert e[5..] == "x";
    assert IndexOfChar("x", '.') == -1 by {
      assert '.' !in "x";
    }
  }

  /** The local part is not empty. */
  lemma RejectedEmailWithoutLocalPart()
    ensures !ValidEmail("@x.com")
  {
    IndexOfCharIs("@x.com", '@', 0);
  }

  /** A JSON value of a serialised document. */
  datatype Value = Undefined | Str(s: string) | Num(n: int) | ObjectId(hex: string) | Timestamp(t: int)

  /** The keys the transform deletes. */
  const Hidden: set<string> := {"_id", "password", "__v"}

  /**
   * The object the `toJSON` transform returns: `id` carries the old `_id`
   * (undefined when there was none), `_id`, `password` and `__v` are gone, and
   * every other key passes through with its value.
   */
  function Transformed(ret: map<string, Value>): (r: map<string, Value>)
    ensures r.Keys == ret.Keys - Hidden + {"id"}
    ensures r["id"] == (if "_id" in ret then ret["_id"] else Undefined)
    ensures forall k :: k in ret && k !in Hidden && k != "id" ==> r[k] == ret[k]
  {
    ret["id" := if "_id" in ret then ret["_id"] else Undefined] - Hidden
  }

  /** The plain object mongoose hands to the transform, which edits it in place. */
  class JsonObject {
    var fields: map<string, Value>

    constructor (fields: map<string, Value>)
      ensures this.fields == fields
    {
      this.fields := fields;
    }
  }

  /** The transform body: assign `id`, then delete `_id`, `password` and `__v`. */
  method Transform(ret: JsonObject)
    modifies ret
    ensures ret.fields == Transformed(old(ret.fields))
  {
    ret.fields := ret.fields["id" := if "_id" in ret.fields then ret.fields["_id"] else Undefined];
    ret.fields := ret.fields - {"_id"};
    ret.fields := ret.fields - {"password"};
    ret.fields := ret.fields - {"__v"};
  }

  /** A stored user as a document, with the schema's timestamps and version key. */
  function Document(u: User, createdAt: int, updatedAt: int, version: int): map<string, Value> {
    map["_id" := ObjectId(u.id), "name" := Str(u.name), "email" := Str(u.email),
        "password" := Str(u.password), "createdAt" := Timestamp(createdAt),
        "updatedAt" := Timestamp(updatedAt), "__v" := Num(version)]
  }

  /** A serialised user shows its id, name, email and timestamps, and never its password. */
  lemma SerializedUserHidesSecrets(u: User, createdAt: int, updatedAt: int, version: int)
    ensures var j := Transformed(Document(u, createdAt, updatedAt, version));
      j.Keys == {"id", "name", "email", "createdAt", "updatedAt"}
      && j["id"] == ObjectId(u.id) && j["name"] == Str(u.name) && j["email"] == Str(u.email)
  {
    var d := Document(u, createdAt, updatedAt, version);
    assert d.Keys == {"_id", "name", "email", "password", "createdAt", "updatedAt", "__v"};
  }
}
