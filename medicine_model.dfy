/** The medicine records of medicineModel.js. The schema's timestamps
    give every record a creation and an update time. */
module MedicineModel {
  import opened Seqs

  /** `imageUrl` is optional; its absence is the empty string. */
  datatype Medicine = Medicine(
    id: string, name: string, category: string, manufacturer: string, description: string,
    price: real, dosage: string, imageUrl: string, createdAt: int, updatedAt: int)

  /** The schema's required String paths refuse the empty string; `price`
      only needs a number, which the type gives. */
  predicate Conforms(m: Medicine) {
    m.name != "" && m.category != "" && m.manufacturer != "" && m.description != "" && m.dosage != ""
  }

  /** Database ids are unique. */
  predicate UniqueIds(s: seq<Medicine>) {
    forall i, j :: 0 <= i < j < |s| ==> s[i].id != s[j].id
  }

  /** Ordered by `createdAt`, newest first. */
  predicate NewestFirst(s: seq<Medicine>) {
    forall i, j :: 0 <= i < j < |s| ==> s[i].createdAt >= s[j].createdAt
  }

  function WithId(id: string): Medicine -> bool {
    (m: Medicine) => m.id == id
  }

  /** The position of the record with this id, or -1. */
  function IndexOfId(s: seq<Medicine>, id: string): (k: int)
    ensures -1 <= k < |s|
    ensures k == -1 <==> forall i :: 0 <= i < |s| ==> s[i].id != id
    ensures 0 <= k ==> s[k].id == id
  {
    IndexWhere(s, WithId(id))
  }

  /** Taking the record at `k` out of a catalog with unique ids removes
      exactly the records with its id. */
  lemma DeleteAtRemovesOnlyThatId(s: seq<Medicine>, k: int, m: Medicine)
    requires UniqueIds(s) && 0 <= k < |s|
    ensures m in s[..k] + s[k + 1..] <==> m in s && m.id != s[k].id
  {
    var t := s[..k] + s[k + 1..];
    if m in t {
      var j :| 0 <= j < |t| && t[j] == m;
      if j < k { assert s[j] == m; } else { assert s[j + 1] == m; }
    }
    if m in s && m.id != s[k].id {
      var j :| 0 <= j < |s| && s[j] == m;
      if j < k { assert t[j] == m; } else { assert t[j - 1] == m; }
    }
  }

  /** ... and keeps the ids unique. */
  lemma DeleteAtKeepsUniqueIds(s: seq<Medicine>, k: int)
    requires UniqueIds(s) && 0 <= k < |s|
    ensures UniqueIds(s[..k] + s[k + 1..])
  {
    var t := s[..k] + s[k + 1..];
    forall i, j | 0 <= i < j < |t| ensures t[i].id != t[j].id {
      var i' := if i < k then i else i + 1;
      var j' := if j < k then j else j + 1;
      assert t[i] == s[i'] && t[j] == s[j'];
    }
  }
}
