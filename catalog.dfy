/** The model catalog (utils/firebase_storage.py): metadata merging, the
    registration of a generated model (fetch the GLB, upload it as a blob,
    write a catalog document) and the listing of catalog documents.

    The storage bucket and the document collection are an abstract store:
    the bucket maps each path to the object last uploaded there, and the
    documents are the ones written, in order. What the SDK
    and the clock supply (the fetched bytes or the fetch error, the public
    URL of the uploaded blob, the new document's id, the server timestamp,
    the current time) are parameters. */
module Catalog {
  import opened Wrappers
  import opened Json
  import opened Text

  const DefaultTitle: string := "生成モデル"

  /** The first argument of `_coerce_meta`: a plain title, a metadata
      dict, or `None`. */
  datatype TitleOrMeta = NoMeta | Title(s: string) | Meta(d: Dict)

  /** The keys the merged metadata holds. */
  const MetaKeys: set<string> := {"title", "user", "profile", "ext", "slug"}

  /** The keys that `extra` may override, in the order they are merged. */
  predicate Overridable(k: string) {
    k == "user" || k == "profile" || k == "ext" || k == "slug"
  }

  /** The value an overridable key falls back to. */
  function Fallback(k: string): Value
    requires Overridable(k)
  {
    if k == "user" then Str("anonymous")
    else if k == "profile" then EmptyObj
    else if k == "ext" then Str("glb")
    else Str("model")
  }

  /** What the first argument says about key `k`: a dict's own entry, and
      nothing for a title or `None`. */
  function Given(tm: TitleOrMeta, k: string): Value {
    if tm.Meta? then Get(tm.d, k) else Null
  }

  /** The title a metadata dict carries: its `title` when that is a
      string, else `None`. */
  function StringTitle(d: Dict): Value {
    if Get(d, "title").Str? then Get(d, "title") else Null
  }

  /** `_coerce_meta`: the title from the first argument, then each of user,
      profile, ext and slug from `extra` when truthy there, else from the
      dict, else its fallback. */
  function CoerceMeta(tm: TitleOrMeta, extra: Dict): (meta: Dict)
    ensures meta.Keys == MetaKeys
    // a plain title is kept as given, even when empty
    ensures tm.Title? ==> meta["title"] == Str(tm.s)
    ensures tm.NoMeta? ==> meta["title"] == Str(DefaultTitle)
    // a dict gives its non-empty string title, else its truthy slug, else the default
    ensures tm.Meta? ==>
      var t := Get(tm.d, "title");
      var slug := Get(tm.d, "slug");
      (t.Str? && t.s != "" ==> meta["title"] == t)
      && (!(t.Str? && t.s != "") && Truthy(slug) ==> meta["title"] == slug)
      && (!(t.Str? && t.s != "") && !Truthy(slug) ==> meta["title"] == Str(DefaultTitle))
    // extra wins when truthy, then the dict when truthy, then the fallback
    ensures forall k :: Overridable(k) ==>
      (Truthy(Get(extra, k)) ==> meta[k] == extra[k])
      && (!Truthy(Get(extra, k)) && Truthy(Given(tm, k)) ==> meta[k] == Given(tm, k))
      && (!Truthy(Get(extra, k)) && !Truthy(Given(tm, k)) ==> meta[k] == Fallback(k))
  {
    var title := match tm
      case NoMeta => Str(DefaultTitle)
      case Title(s) => Str(s)
      case Meta(d) => Or(StringTitle(d), Or(Get(d, "slug"), Str(DefaultTitle)));
    map[
      "title" := title,
      "user" := Or(Get(extra, "user"), Or(Given(tm, "user"), Fallback("user"))),
      "profile" := Or(Get(extra, "profile"), Or(Given(tm, "profile"), Fallback("profile"))),
      "ext" := Or(Get(extra, "ext"), Or(Given(tm, "ext"), Fallback("ext"))),
      "slug" := Or(Get(extra, "slug"), Or(Given(tm, "slug"), Fallback("slug")))
    ]
  }

  /** User, ext and slug always come out truthy, since their fallbacks
      are; the profile can still be the empty dict `{}`. The title is
      truthy too unless a plain empty title was given. */
  lemma {:induction false} MetaFieldsTruthy(tm: TitleOrMeta, extra: Dict)
    ensures forall k :: Overridable(k) && k != "profile" ==> Truthy(CoerceMeta(tm, extra)[k])
    ensures tm != Title("") ==> Truthy(CoerceMeta(tm, extra)["title"])
  {
    var meta := CoerceMeta(tm, extra);
    forall k | Overridable(k) && k != "profile"
      ensures Truthy(meta[k])
    {
      assert Truthy(Fallback(k));
    }
  }

  // ---- Registration

  /** An uploaded object: its bytes and content type. */
  datatype Blob = Blob(content: seq<bv8>, contentType: string)

  /** A catalog document: its generated id and its fields. */
  datatype Doc = Doc(id: string, fields: Dict)

  /** `f"models/model_{int(datetime.now().timestamp())}.glb"`. */
  function BlobPath(seconds: nat): string {
    "models/model_" + NatToString(seconds) + ".glb"
  }

  /** The storage path always lies under "models/model_" and ends in
      ".glb", whatever extension the metadata names, and it tells the
      second it was made in: two registrations share a path exactly when
      they happen in the same second. */
  lemma {:induction false} BlobPathShape(s: nat, t: nat)
    ensures BlobPath(s)[..13] == "models/model_"
    ensures |BlobPath(s)| >= 17 && BlobPath(s)[|BlobPath(s)| - 4..] == ".glb"
    ensures BlobPath(s) == BlobPath(t) <==> s == t
  {
    var d := NatToString(s);
    var e := NatToString(t);
    assert BlobPath(s) == "models/model_" + (d + ".glb");
    assert BlobPath(t) == "models/model_" + (e + ".glb");
    assert BlobPath(s)[13..|BlobPath(s)| - 4] == d;
    assert BlobPath(t)[13..|BlobPath(t)| - 4] == e;
    if s != t {
      NatToStringInjective(s, t);
    }
  }

  /** `blob.upload_from_string(...)`: the object at `path` is replaced, and
      every other path keeps its object. */
  function Upload(bucket: map<string, Blob>, path: string, blob: Blob): (b: map<string, Blob>)
    ensures b.Keys == bucket.Keys + {path} && b[path] == blob
    ensures forall p :: p in bucket && p != path ==> b[p] == bucket[p]
  {
    bucket[path := blob]
  }

  /** Two uploads in the same second write the same path, so the second
      replaces the first's bytes; uploads in different seconds both stay. */
  lemma SameSecondOverwrites(bucket: map<string, Blob>, s: nat, t: nat, x: Blob, y: Blob)
    ensures var after := Upload(Upload(bucket, BlobPath(s), x), BlobPath(t), y);
      after[BlobPath(s)] == (if s == t then y else x) && after[BlobPath(t)] == y
  {
    BlobPathShape(s, t);
  }

  /** The keys a registered record has. */
  const RecordKeys: set<string> :=
    {"id", "title", "public_url", "thumbnail_url", "path", "user", "profile", "created_at"}

  /** The keys the record and the document share with equal values. */
  const SharedKeys: set<string> :=
    {"title", "public_url", "thumbnail_url", "path", "user", "profile"}

  /** The fields the record and the document both carry. */
  function SharedFields(meta: Dict, extra: Dict, publicUrl: string, path: string): Dict
    requires "title" in meta && "user" in meta && "profile" in meta
  {
    map[
      "title" := meta["title"],
      "public_url" := Str(publicUrl),
      "thumbnail_url" := Get(extra, "thumbnail_url"),
      "path" := Str(path),
      "user" := meta["user"],
      "profile" := meta["profile"]
    ]
  }

  /** The document written for a registration: the shared fields and the
      server's timestamp. */
  function DocumentFields(meta: Dict, extra: Dict, path: string, publicUrl: string, serverTime: string): Dict
    requires "title" in meta && "user" in meta && "profile" in meta
  {
    SharedFields(meta, extra, publicUrl, path)["created_at" := Time(serverTime)]
  }

  /** The record returned for a registration: the shared fields, the
      document's id and the local time as text. */
  function Record(meta: Dict, extra: Dict, path: string, publicUrl: string, docId: string, nowIso: string): Dict
    requires "title" in meta && "user" in meta && "profile" in meta
  {
    SharedFields(meta, extra, publicUrl, path)["id" := Str(docId)]["created_at" := Str(nowIso)]
  }

  /** The returned record and the written document agree on every shared
      field; the record carries the merged title, user and profile, the
      blob's path and public URL, and a thumbnail URL taken from `extra`
      alone. Only the timestamps differ: the server's in the document, the
      local clock's in the record. */
  lemma RecordMatchesDocument(
    meta: Dict, extra: Dict, path: string, publicUrl: string, docId: string, serverTime: string, nowIso: string)
    requires "title" in meta && "user" in meta && "profile" in meta
    ensures var rec := Record(meta, extra, path, publicUrl, docId, nowIso);
      var fields := DocumentFields(meta, extra, path, publicUrl, serverTime);
      rec.Keys == RecordKeys && fields.Keys == RecordKeys - {"id"}
      && (forall k :: k in SharedKeys ==> rec[k] == fields[k])
      && rec["id"] == Str(docId)
      && rec["title"] == meta["title"] && rec["user"] == meta["user"] && rec["profile"] == meta["profile"]
      && rec["public_url"] == Str(publicUrl)
      && rec["path"] == Str(path)
      && rec["thumbnail_url"] == Get(extra, "thumbnail_url")
      && fields["created_at"] == Time(serverTime) && rec["created_at"] == Str(nowIso)
  {
  }

  /** The bucket and the documents written so far. */
  class CatalogStore {
    var bucket: map<string, Blob>
    var docs: seq<Doc>

    constructor ()
      ensures bucket == map[] && docs == []
    {
      bucket := map[];
      docs := [];
    }

    /** `register_model_from_url`: merge the metadata, fetch the mesh
        (`fetched` is the response body, or the error `raise_for_status`
        raises), upload it, then write the document. A failed fetch writes
        nothing. */
    method Register(
      fetched: Result<seq<bv8>, string>, tm: TitleOrMeta, extra: Dict,
      seconds: nat, publicUrl: string, docId: string, serverTime: string, nowIso: string)
      returns (r: Result<Dict, string>)
      modifies this
      ensures fetched.Err? ==> r == Err(fetched.error) && bucket == old(bucket) && docs == old(docs)
      // the fetched bytes at the second's path, then one document
      ensures fetched.Ok? ==>
        bucket == Upload(old(bucket), BlobPath(seconds), Blob(fetched.value, "model/gltf-binary"))
        && docs == old(docs) + [Doc(docId, DocumentFields(CoerceMeta(tm, extra), extra, BlobPath(seconds), publicUrl, serverTime))]
        && r == Ok(Record(CoerceMeta(tm, extra), extra, BlobPath(seconds), publicUrl, docId, nowIso))
    {
      var meta := CoerceMeta(tm, extra);
      if fetched.Err? {
        return Err(fetched.error);
      }
      var path := BlobPath(seconds);
      bucket := Upload(bucket, path, Blob(fetched.value, "model/gltf-binary"));
      var shared := SharedFields(meta, extra, publicUrl, path);
      docs := docs + [Doc(docId, shared["created_at" := Time(serverTime)])];
      r := Ok(shared["id" := Str(docId)]["created_at" := Str(nowIso)]);
    }
  }

  // ---- Listing

  /** A document as the query streams it: its id and `to_dict()`, which is
      `None` for a document that does not exist. */
  datatype Snapshot = Snapshot(id: string, data: Option<Dict>)

  /** `created_at` as listed: a timestamp becomes its ISO text, a missing
      value the empty string; anything else is passed through. */
  function CreatedText(v: Value): (r: Value)
    ensures v.Time? ==> r == Str(v.iso)
    ensures v.Null? ==> r == Str("")
    ensures !v.Time? && !v.Null? ==> r == v
  {
    match v
    case Time(iso) => Str(iso)
    case Null => Str("")
    case _ => v
  }

  /** The record `list_models` makes of one document. */
  function Listed(s: Snapshot): (r: Dict)
    ensures r.Keys == RecordKeys
    ensures r["id"] == Str(s.id)
    // title, user and profile are the stored ones when truthy, else their defaults
    ensures var obj := s.data.GetOr(map[]);
      (forall k :: k in {"title", "user", "profile"} && Truthy(Get(obj, k)) ==> r[k] == obj[k])
      && (!Truthy(Get(obj, "title")) ==> r["title"] == Str(DefaultTitle))
      && (!Truthy(Get(obj, "user")) ==> r["user"] == Str("anonymous"))
      && (!Truthy(Get(obj, "profile")) ==> r["profile"] == EmptyObj)
      && (forall k :: k in {"public_url", "thumbnail_url", "path"} ==> r[k] == Get(obj, k))
      && r["created_at"] == CreatedText(Get(obj, "created_at"))
  {
    var obj := s.data.GetOr(map[]);
    map[
      "id" := Str(s.id),
      "title" := Or(Get(obj, "title"), Str(DefaultTitle)),
      "public_url" := Get(obj, "public_url"),
      "thumbnail_url" := Get(obj, "thumbnail_url"),
      "path" := Get(obj, "path"),
      "user" := Or(Get(obj, "user"), Str("anonymous")),
      "profile" := Or(Get(obj, "profile"), EmptyObj),
      "created_at" := CreatedText(Get(obj, "created_at"))
    ]
  }

  /** Listed records always show a title and a user, and a timestamp that a
      client can read as text. */
  lemma ListedDisplayable(s: Snapshot)
    ensures Truthy(Listed(s)["title"]) && Truthy(Listed(s)["user"])
    ensures Get(s.data.GetOr(map[]), "created_at").Time? ==> Listed(s)["created_at"].Str?
  {
  }

  /** `list_models`: one record per streamed document, in stream order. */
  method ListModels(stream: seq<Snapshot>) returns (items: seq<Dict>)
    ensures |items| == |stream|
    ensures forall i :: 0 <= i < |items| ==> items[i] == Listed(stream[i])
  {
    items := [];
    for i := 0 to |stream|
      invariant |items| == i
      invariant forall j :: 0 <= j < i ==> items[j] == Listed(stream[j])
    {
      items := items + [Listed(stream[i])];
    }
  }

  /** The registered record's document lists back with the record's title,
      user and profile when those are truthy, and with the server's time as
      its timestamp. */
  lemma {:induction false} RegisteredListsBack(rec: Dict, fields: Dict, docId: string, serverTime: string)
    requires rec.Keys == RecordKeys && fields.Keys == RecordKeys - {"id"}
    requires forall k :: k in SharedKeys ==> rec[k] == fields[k]
    requires fields["created_at"] == Time(serverTime)
    ensures var l := Listed(Snapshot(docId, Some(fields)));
      (forall k :: k in {"title", "user", "profile"} && Truthy(rec[k]) ==> l[k] == rec[k])
      && (forall k :: k in {"public_url", "thumbnail_url", "path"} ==> l[k] == rec[k])
      && l["created_at"] == Str(serverTime)
  {
    var l := Listed(Snapshot(docId, Some(fields)));
    forall k | k in {"title", "user", "profile"} && Truthy(rec[k])
      ensures l[k] == rec[k]
    {
      assert k in SharedKeys;
    }
    forall k | k in {"public_url", "thumbnail_url", "path"}
      ensures l[k] == rec[k]
    {
      assert k in SharedKeys;
    }
  }
}
