/** The `Url` document schema and the collection that stores it.

    A link record (`Link`) is a value; the collection (`UrlCollection`) is the
    mutable store, holding the records in insertion order. Saving a document
    runs the `pre('save')` hook and then the schema's checks: the required
    fields, and the unique indexes on `_id`, on `shortUrl` and (sparse) on
    `customAlias`. A save that fails any check leaves the store unchanged. */
module UrlModel {

  datatype Option<T> = None | Some(value: T)

  /** A MongoDB ObjectId. Its hexadecimal rendering is one-to-one, so only its
      identity matters here. */
  type ObjectId = nat

  /** A code from `shortid.generate()`: never empty. */
  type ShortCode = s: string | s != "" witness "0"

  /** JavaScript truthiness of an optional string field. */
  predicate Truthy(s: Option<string>) {
    s.Some? && s.value != ""
  }

  /** One click subdocument: when it was recorded and from which address
      (`req.ip` may be absent). */
  datatype Click = Click(timestamp: int, ip: Option<string>)

  datatype Link = Link(
    id: ObjectId,
    originalUrl: string,
    shortUrl: string,
    customAlias: Option<string>,
    userId: Option<ObjectId>,
    title: string,
    createdAt: int,
    clicks: seq<Click>)

  /** A click subdocument as the schema builds it: the timestamp defaults to
      the current time when none is given. */
  function NewClick(timestamp: Option<int>, ip: Option<string>, now: int): (c: Click)
    ensures c.ip == ip
    ensures timestamp.None? ==> c.timestamp == now
    ensures timestamp.Some? ==> c.timestamp == timestamp.value
  {
    Click(if timestamp.Some? then timestamp.value else now, ip)
  }

  /** The `pre('save')` hook: a document without a code gets its custom alias,
      or a generated code when the alias is falsy. */
  function PreSave(doc: Link, generated: ShortCode): (saved: Link)
    ensures saved.shortUrl != ""
    ensures saved.(shortUrl := doc.shortUrl) == doc
    ensures doc.shortUrl != "" ==> saved == doc
    ensures doc.shortUrl == "" && Truthy(doc.customAlias) ==> saved.shortUrl == doc.customAlias.value
    ensures doc.shortUrl == "" && !Truthy(doc.customAlias) ==> saved.shortUrl == generated
  {
    if doc.shortUrl != "" then doc
    else doc.(shortUrl := if Truthy(doc.customAlias) then doc.customAlias.value else generated)
  }

  /** The `required: true` fields: a Mongoose string is missing when empty. */
  predicate HasRequiredFields(l: Link) {
    l.originalUrl != "" && l.shortUrl != "" && l.title != ""
  }

  /** Two distinct records may sit side by side in the collection: different
      `_id`, different `shortUrl`, and different `customAlias` when both set
      one (the sparse index ignores records that leave it unset). */
  predicate Compatible(a: Link, b: Link) {
    && a.id != b.id
    && a.shortUrl != b.shortUrl
    && !(a.customAlias.Some? && b.customAlias.Some? && a.customAlias.value == b.customAlias.value)
  }

  /** Every constraint of the schema holds over the whole collection. */
  predicate SchemaValid(links: seq<Link>) {
    && (forall i :: 0 <= i < |links| ==> HasRequiredFields(links[i]))
    && (forall i, j :: 0 <= i < j < |links| ==> Compatible(links[i], links[j]))
  }

  /** In a valid collection no two positions share an `_id` or a code,
      whichever of the two comes first. */
  lemma KeysUnique(links: seq<Link>)
    requires SchemaValid(links)
    ensures forall i, j :: 0 <= i < |links| && 0 <= j < |links| && i != j ==>
      links[i].id != links[j].id && links[i].shortUrl != links[j].shortUrl
  {
    forall i, j | 0 <= i < |links| && 0 <= j < |links| && i != j
      ensures links[i].id != links[j].id && links[i].shortUrl != links[j].shortUrl
    {
      if i < j {
        assert Compatible(links[i], links[j]);
      } else {
        assert Compatible(links[j], links[i]);
      }
    }
  }

  /** The check a new document passes before it is inserted. */
  predicate CanInsert(links: seq<Link>, rec: Link) {
    HasRequiredFields(rec) && forall i :: 0 <= i < |links| ==> Compatible(links[i], rec)
  }

  /** The check a changed document at index `k` passes before it is written back. */
  predicate CanReplace(links: seq<Link>, k: nat, rec: Link)
    requires k < |links|
  {
    HasRequiredFields(rec) && forall i :: 0 <= i < |links| && i != k ==> Compatible(links[i], rec)
  }

  /** `findById`: the position of the record with this `_id`. */
  function IndexOfId(links: seq<Link>, id: ObjectId): (r: Option<nat>)
    ensures r.Some? ==> r.value < |links| && links[r.value].id == id
    ensures r.None? ==> forall i :: 0 <= i < |links| ==> links[i].id != id
  {
    if |links| == 0 then None
    else if links[0].id == id then Some(0)
    else match IndexOfId(links[1..], id)
      case None => None
      case Some(k) => Some(k + 1)
  }

  /** `findOne({ shortUrl })`: the position of the first record with this code. */
  function IndexOfCode(links: seq<Link>, code: string): (r: Option<nat>)
    ensures r.Some? ==> r.value < |links| && links[r.value].shortUrl == code
    ensures r.Some? ==> forall i :: 0 <= i < r.value ==> links[i].shortUrl != code
    ensures r.None? ==> forall i :: 0 <= i < |links| ==> links[i].shortUrl != code
  {
    if |links| == 0 then None
    else if links[0].shortUrl == code then Some(0)
    else match IndexOfCode(links[1..], code)
      case None => None
      case Some(k) => Some(k + 1)
  }

  /** Inserting is admitted exactly when the grown collection still satisfies
      the schema. */
  lemma {:induction false} InsertAdmittedIff(links: seq<Link>, rec: Link)
    requires SchemaValid(links)
    ensures CanInsert(links, rec) <==> SchemaValid(links + [rec])
  {
    var grown := links + [rec];
    if CanInsert(links, rec) {
      forall i, j | 0 <= i < j < |grown| ensures Compatible(grown[i], grown[j]) {
        if j == |links| {
          assert grown[j] == rec && grown[i] == links[i];
        } else {
          assert grown[i] == links[i] && grown[j] == links[j];
        }
      }
    }
    if SchemaValid(grown) {
      assert grown[|links|] == rec;
      forall i | 0 <= i < |links| ensures Compatible(links[i], rec) {
        assert grown[i] == links[i];
      }
    }
  }

  /** Writing back a changed record is admitted exactly when the collection
      still satisfies the schema afterwards. */
  lemma {:induction false} ReplaceAdmittedIff(links: seq<Link>, k: nat, rec: Link)
    requires SchemaValid(links) && k < |links|
    ensures CanReplace(links, k, rec) <==> SchemaValid(links[k := rec])
  {
    var changed := links[k := rec];
    if CanReplace(links, k, rec) {
      forall i, j | 0 <= i < j < |changed| ensures Compatible(changed[i], changed[j]) {
        if i == k {
          assert Compatible(links[j], rec);
        } else if j == k {
          assert Compatible(links[i], rec);
        }
      }
    }
    if SchemaValid(changed) {
      assert HasRequiredFields(changed[k]);
      forall i | 0 <= i < |links| && i != k ensures Compatible(links[i], rec) {
        if i < k {
          assert Compatible(changed[i], changed[k]);
        } else {
          assert Compatible(changed[k], changed[i]);
        }
      }
    }
  }

  /** Removing one record keeps the schema, and what remains is every other
      record. */
  lemma RemoveKeepsSchema(links: seq<Link>, k: nat)
    requires SchemaValid(links) && k < |links|
    ensures SchemaValid(links[..k] + links[k + 1..])
    ensures forall l :: l in links[..k] + links[k + 1..] <==> l in links && l.id != links[k].id
  {
    var rest := links[..k] + links[k + 1..];
    forall i | 0 <= i < |rest| ensures rest[i] == links[if i < k then i else i + 1] { }
    forall i, j | 0 <= i < j < |rest| ensures Compatible(rest[i], rest[j]) {
      assert rest[i] == links[if i < k then i else i + 1];
      assert rest[j] == links[if j < k then j else j + 1];
    }
    forall l | l in links && l.id != links[k].id ensures l in rest {
      var m :| 0 <= m < |links| && links[m] == l;
      assert m != k;
      assert rest[if m < k then m else m - 1] == l;
    }
    forall l | l in rest ensures l in links && l.id != links[k].id {
      var m :| 0 <= m < |rest| && rest[m] == l;
      var src := if m < k then m else m + 1;
      assert links[src] == l && src != k;
      if src < k { assert Compatible(links[src], links[k]); }
      else { assert Compatible(links[k], links[src]); }
    }
  }

  /** A record changed only outside its indexed fields (`_id`, `shortUrl`,
      `customAlias`) and still carrying its required fields may always be
      written back. */
  lemma {:induction false} SameKeysAdmitted(links: seq<Link>, k: nat, rec: Link)
    requires SchemaValid(links) && k < |links|
    requires rec.id == links[k].id && rec.shortUrl == links[k].shortUrl && rec.customAlias == links[k].customAlias
    requires HasRequiredFields(rec)
    ensures CanReplace(links, k, rec)
    ensures IndexOfId(links, rec.id) == Some(k)
  {
    forall i | 0 <= i < |links| && i != k ensures Compatible(links[i], rec) {
      if i < k {
        assert Compatible(links[i], links[k]);
      } else {
        assert Compatible(links[k], links[i]);
      }
    }
  }

  /** The `Url` collection. */
  class UrlCollection {
    /** The stored records, oldest first. */
    var links: seq<Link>
    /** The next ObjectId the driver hands out; every stored `_id` is below it. */
    var nextId: ObjectId

    ghost predicate Valid()
      reads this
    {
      SchemaValid(links) && forall i :: 0 <= i < |links| ==> links[i].id < nextId
    }

    constructor ()
      ensures Valid() && links == []
    {
      links := [];
      nextId := 0;
    }

    /** `new Url({...})` gives the document a fresh `_id`. */
    method NewId() returns (id: ObjectId)
      requires Valid()
      modifies this`nextId
      ensures Valid() && id < nextId
      ensures forall i :: 0 <= i < |links| ==> links[i].id != id
    {
      id := nextId;
      nextId := nextId + 1;
    }

    /** `save()` of a new document: the hook, then the schema's checks, then
        the insert. `fault` stands for a write the database itself refuses. */
    method Insert(doc: Link, generated: ShortCode, fault: bool) returns (ok: bool)
      requires Valid() && doc.id < nextId
      modifies this`links
      ensures Valid()
      ensures ok <==> !fault && CanInsert(old(links), PreSave(doc, generated))
      ensures links == if ok then old(links) + [PreSave(doc, generated)] else old(links)
    {
      var saved := PreSave(doc, generated);
      InsertAdmittedIff(links, saved);
      ok := !fault && CanInsert(links, saved);
      if ok {
        links := links + [saved];
      }
    }

    /** `save()` of a document read earlier: the hook, then the schema's
        checks against every other record, then the write-back. A document
        whose `_id` is no longer stored is not found. */
    method Update(doc: Link, generated: ShortCode, fault: bool) returns (ok: bool)
      requires Valid()
      modifies this`links
      ensures Valid()
      ensures match IndexOfId(old(links), doc.id)
        case None => !ok && links == old(links)
        case Some(k) =>
          && (ok <==> !fault && CanReplace(old(links), k, PreSave(doc, generated)))
          && links == if ok then old(links)[k := PreSave(doc, generated)] else old(links)
    {
      var found := IndexOfId(links, doc.id);
      ok := false;
      if found.Some? {
        var k := found.value;
        var saved := PreSave(doc, generated);
        ReplaceAdmittedIff(links, k, saved);
        ok := !fault && CanReplace(links, k, saved);
        if ok {
          links := links[k := saved];
        }
      }
    }

    /** `deleteOne()` on a document: removes the record with that `_id`. */
    method DeleteOne(id: ObjectId, fault: bool) returns (ok: bool)
      requires Valid()
      modifies this`links
      ensures Valid()
      ensures ok == !fault
      ensures match IndexOfId(old(links), id)
        case None => links == old(links)
        case Some(k) => links == if ok then old(links)[..k] + old(links)[k + 1..] else old(links)
    {
      ok := !fault;
      var found := IndexOfId(links, id);
      if ok && found.Some? {
        var k := found.value;
        RemoveKeepsSchema(links, k);
        links := links[..k] + links[k + 1..];
      }
    }
  }
}
