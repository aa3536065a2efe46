/** Ownership stamps (charts/owner.go): "<id>:<kind>/<name>", naming whoever manages a resource. */
module Owner {
  import opened Text

  datatype OwnerRef = OwnerRef(id: string, kind: string, name: string)

  const OWNER_KIND_RELEASE := "release"

  function Stamp(o: OwnerRef): string { o.id + ":" + o.kind + "/" + o.name }

  /* The text before and after the first c, when there is one. */
  function Cut(s: string, c: char): (r: Option<(string, string)>)
    ensures r.Some? <==> c in s
    ensures r.Some? ==> s == r.value.0 + [c] + r.value.1 && c !in r.value.0
  {
    if s == [] then None
    else if s[0] == c then Some(([], s[1..]))
    else match Cut(s[1..], c)
      case None => None
      case Some((a, b)) => Some(([s[0]] + a, b))
  }

  lemma {:induction false} CutAtFirst(a: string, c: char, b: string)
    requires c !in a
    ensures Cut(a + [c] + b, c) == Some((a, b))
  {
    if a == [] {
      assert (a + [c] + b)[1..] == b;
    } else {
      CutAtFirst(a[1..], c, b);
      assert (a + [c] + b)[1..] == a[1..] + [c] + b;
      assert a[0] in a && [a[0]] + a[1..] == a;
    }
  }

  /* The id ends at the first ':', so it may hold a '/'; only what follows is split into kind and name. */
  function ParseOwner(s: string): Option<OwnerRef> {
    match Cut(s, ':')
    case None => None
    case Some((id, rest)) =>
      match Cut(rest, '/')
      case None => None
      case Some((kind, name)) =>
        if id == "" || kind == "" || name == "" then None else Some(OwnerRef(id, kind, name))
  }

  predicate ValidOwnerID(id: string) { id != "" && ':' !in id }

  /* A reference reads back from its stamp exactly when nothing in it is empty, the id holds no ':'
     and the kind no '/'. */
  lemma StampReadsBackIff(o: OwnerRef)
    ensures ParseOwner(Stamp(o)) == Some(o) <==> ValidOwnerID(o.id) && o.kind != "" && '/' !in o.kind && o.name != ""
  {
    var rest := o.kind + ['/'] + o.name;
    assert Stamp(o) == o.id + [':'] + rest;
    if ':' !in o.id {
      CutAtFirst(o.id, ':', rest);
      if '/' !in o.kind {
        CutAtFirst(o.kind, '/', o.name);
      }
    }
  }

  /* A stamp that parses is rebuilt from what it parses to, and from nothing else. */
  lemma StampOfParse(s: string)
    requires ParseOwner(s).Some?
    ensures Stamp(ParseOwner(s).value) == s
    ensures ValidOwnerID(ParseOwner(s).value.id) && '/' !in ParseOwner(s).value.kind
  {
    var (id, rest) := Cut(s, ':').value;
    var (kind, name) := Cut(rest, '/').value;
    assert s == id + [':'] + (kind + ['/'] + name);
    assert Stamp(OwnerRef(id, kind, name)) == id + ":" + kind + "/" + name;
  }

  /* Owners the engine accepts claim no release but the one they stamped: neither under another
     name nor under another id. */
  lemma StampsAreDistinct(id: string, name: string, other: string, otherName: string)
    requires ValidOwnerID(id) && ValidOwnerID(other) && name != "" && otherName != ""
    ensures Stamp(OwnerRef(id, OWNER_KIND_RELEASE, name)) == Stamp(OwnerRef(other, OWNER_KIND_RELEASE, otherName))
        <==> id == other && name == otherName
  {
    StampReadsBackIff(OwnerRef(id, OWNER_KIND_RELEASE, name));
    StampReadsBackIff(OwnerRef(other, OWNER_KIND_RELEASE, otherName));
  }
}
