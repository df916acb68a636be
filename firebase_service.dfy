/** Data access over the hosted document database: the `devs` collection of
    developer records, keyed by normalised email, and the `skillsCatalog`
    record of the `config` collection. */
module FirebaseService {
  import opened Types
  import opened Text

  /** The catalog returned when the `skillsCatalog` record does not exist. */
  const DEFAULT_SKILLS: seq<string> := [
    "JavaScript", "TypeScript", "Node.js", "React", "Python", "AWS", "Azure",
    "GCP", "DevOps", "Kubernetes", "n8n", "QA", "Data Engineering"]

  /** The `devs` collection after a `setDoc` of `data` under its normalised email:
      that one entry is set, overwriting any earlier record, and nothing else changes. */
  function Upsert(docs: map<string, DeveloperData>, data: DeveloperData): (r: map<string, DeveloperData>)
    ensures var key := Normalize(data.email);
      && key in r && r[key] == data
      && r.Keys == docs.Keys + {key}
      && forall k :: k in docs && k != key ==> r[k] == docs[k]
  {
    var key := Normalize(data.email);
    UpdateSets(docs, key, data);
    docs[key := data]
  }

  lemma UpdateSets(docs: map<string, DeveloperData>, key: string, data: DeveloperData)
    ensures var r := docs[key := data];
      && key in r && r[key] == data
      && r.Keys == docs.Keys + {key}
      && forall k :: k in docs && k != key ==> r[k] == docs[k]
  {
  }

  /** `developerExists`: the record keyed by the normalised email is present. */
  predicate Exists(docs: map<string, DeveloperData>, email: string): (found: bool)
    ensures Trimmed(email) && AllLower(email) ==> (found <==> email in docs)
  {
    NormalizeOfNormal(email);
    Normalize(email) in docs
  }

  /** Every record sits under the normalised form of its own email, so no two
      records share a normalised email. */
  ghost predicate KeyedByEmail(docs: map<string, DeveloperData>) {
    forall k :: k in docs ==> k == Normalize(docs[k].email)
  }

  /** `devs` is a faithful listing of the collection: one developer per stored
      record, carrying that record's key as `id` and the record's fields. */
  ghost predicate IsListing(docs: map<string, DeveloperData>, devs: seq<Developer>) {
    && |devs| == |docs|
    && (forall i :: 0 <= i < |devs| ==> devs[i].id in docs && Data(devs[i]) == docs[devs[i].id])
    && (forall k :: k in docs ==> exists i :: 0 <= i < |devs| && devs[i].id == k)
    && (forall i, j :: 0 <= i < j < |devs| ==> devs[i].id != devs[j].id)
  }

  /** After a record is written, the existence check finds it under its own email
      and under every variant of it that differs only in letter case and in
      surrounding spaces; so a second registration with such a variant is refused. */
  lemma FoundAfterAdd(docs: map<string, DeveloperData>, data: DeveloperData,
                      pre: string, variant: string, post: string)
    requires AllSpaces(pre) && AllSpaces(post)
    requires Lower(variant) == Lower(data.email)
    ensures Exists(Upsert(docs, data), data.email)
    ensures Exists(Upsert(docs, data), pre + variant + post)
  {
    NormalizeVariant(data.email, pre, variant, post);
  }

  /** A write keeps every record under the normalised form of its own email. */
  lemma UpsertKeepsKeyed(docs: map<string, DeveloperData>, data: DeveloperData)
    requires KeyedByEmail(docs)
    ensures KeyedByEmail(Upsert(docs, data))
  {
    var key := Normalize(data.email);
    var r := Upsert(docs, data);
    forall k | k in r ensures k == Normalize(r[k].email) {
      if k != key {
        assert r[k] == docs[k];
      }
    }
  }

  /** Writing the same record twice leaves the collection as writing it once. */
  lemma UpsertTwice(docs: map<string, DeveloperData>, data: DeveloperData)
    ensures Upsert(Upsert(docs, data), data) == Upsert(docs, data)
  {
    UpdateTwice(docs, Normalize(data.email), data);
  }

  lemma UpdateTwice(docs: map<string, DeveloperData>, key: string, data: DeveloperData)
    ensures docs[key := data][key := data] == docs[key := data]
  {
  }

  /** A write adds at most one record: an existing key is overwritten, not duplicated. */
  lemma UpsertCount(docs: map<string, DeveloperData>, data: DeveloperData)
    ensures Exists(docs, data.email) ==> |Upsert(docs, data)| == |docs|
    ensures !Exists(docs, data.email) ==> |Upsert(docs, data)| == |docs| + 1
  {
  }

  /** The `devs` collection held by the hosted database. */
  class DeveloperStore {
    var docs: map<string, DeveloperData>

    constructor (initial: map<string, DeveloperData>)
      ensures docs == initial
    {
      docs := initial;
    }

    /** `developerExists(email)`. */
    function DeveloperExists(email: string): (found: bool)
      reads this
      ensures found <==> Normalize(email) in docs
    {
      Exists(docs, email)
    }

    /** `addDeveloper(data)`: an upsert under the normalised email. */
    method AddDeveloper(data: DeveloperData)
      modifies this
      ensures docs == Upsert(old(docs), data)
      ensures DeveloperExists(data.email)
      ensures KeyedByEmail(old(docs)) ==> KeyedByEmail(docs)
    {
      if KeyedByEmail(docs) {
        UpsertKeepsKeyed(docs, data);
      }
      docs := Upsert(docs, data);
    }

    /** `getDevelopers()`: every stored record once, with its key as `id`, in the
        order the database lists them (any order). */
    method GetDevelopers() returns (devs: seq<Developer>)
      ensures IsListing(docs, devs)
    {
      devs := [];
      var remaining := docs.Keys;
      while remaining != {}
        invariant PartialListing(docs, remaining, devs)
        decreases remaining
      {
        var key :| key in remaining;
        ListingStep(docs, remaining, devs, key);
        devs := devs + [WithId(key, docs[key])];
        remaining := remaining - {key};
      }
    }
  }

  /** The loop invariant of `getDevelopers`' listing: `devs` lists, once each,
      exactly the records whose keys are not in `remaining`. */
  ghost predicate PartialListing(docs: map<string, DeveloperData>, remaining: set<string>, devs: seq<Developer>) {
    && remaining <= docs.Keys
    && |devs| + |remaining| == |docs|
    && (forall i :: 0 <= i < |devs| ==>
          devs[i].id in docs && devs[i].id !in remaining && Data(devs[i]) == docs[devs[i].id])
    && (forall k :: k in docs && k !in remaining ==> exists i :: 0 <= i < |devs| && devs[i].id == k)
    && (forall i, j :: 0 <= i < j < |devs| ==> devs[i].id != devs[j].id)
  }

  /** Listing one more record keeps the listing invariant. */
  lemma ListingStep(docs: map<string, DeveloperData>, remaining: set<string>, devs: seq<Developer>, key: string)
    requires PartialListing(docs, remaining, devs) && key in remaining
    ensures PartialListing(docs, remaining - {key}, devs + [WithId(key, docs[key])])
  {
    ListingCovers(docs, remaining, devs, key);
  }

  lemma ListingCovers(docs: map<string, DeveloperData>, remaining: set<string>, devs: seq<Developer>, key: string)
    requires forall k :: k in docs && k !in remaining ==> exists i :: 0 <= i < |devs| && devs[i].id == k
    requires key in docs
    ensures var next := devs + [WithId(key, docs[key])];
      forall k :: k in docs && k !in remaining - {key} ==> exists i :: 0 <= i < |next| && next[i].id == k
  {
    var next := devs + [WithId(key, docs[key])];
    forall k | k in docs && k !in remaining - {key}
      ensures exists i :: 0 <= i < |next| && next[i].id == k
    {
      if k == key {
        assert next[|devs|].id == k;
      } else {
        var i :| 0 <= i < |devs| && devs[i].id == k;
        assert next[i].id == k;
      }
    }
  }

  /** The `skillsCatalog` record: its `skills` field may be absent. */
  datatype CatalogDoc = CatalogDoc(skills: Option<seq<string>>)

  /** The outcome of reading one record: present, absent, or the read failed. */
  datatype DocRead<T> = Found(doc: T) | NotFound | ReadFailed

  /** `getSkillsCatalog()`: the record's list when it exists (empty when the field
      is missing), the built-in default list when it does not, and an empty list
      when the read fails; it never fails itself. */
  function GetSkillsCatalog(read: DocRead<CatalogDoc>): (catalog: seq<string>)
    ensures read.Found? && read.doc.skills.Some? ==> catalog == read.doc.skills.value
    ensures read.Found? && read.doc.skills.None? ==> catalog == []
    ensures read.NotFound? ==> catalog == DEFAULT_SKILLS
    ensures read.ReadFailed? ==> catalog == []
  {
    match read
    case Found(doc) => if doc.skills.Some? then doc.skills.value else []
    case NotFound => DEFAULT_SKILLS
    case ReadFailed => []
  }

  /** The fallback catalog has thirteen names, starting with "JavaScript",
      no two alike. */
  lemma DefaultCatalogShape()
    ensures |GetSkillsCatalog(NotFound)| == 13
    ensures GetSkillsCatalog(NotFound)[0] == "JavaScript"
    ensures forall i, j :: 0 <= i < j < 13 ==> DEFAULT_SKILLS[i] != DEFAULT_SKILLS[j]
  {
  }
}
