/**
 * The hostel entity, the form data it is created from, the partial form
 * data an update carries, and how each is laid out as a stored record.
 */
module HostelTypes {
  import opened Common
  import Db

  /** A hostel property; `notes` is optional. */
  datatype Hostel = Hostel(
    id: Id,
    name: string,
    city: string,
    totalFloors: int,
    roomsPerFloor: int,
    managerName: string,
    managerPhone: string,
    notes: Option<string>)

  /** The fields a hostel is created or edited from: a hostel without its id. */
  datatype HostelFormData = HostelFormData(
    name: string,
    city: string,
    totalFloors: int,
    roomsPerFloor: int,
    managerName: string,
    managerPhone: string,
    notes: Option<string>)

  /** `Partial<HostelFormData>`: every field may be left out. */
  datatype HostelPatch = HostelPatch(
    name: Option<string>,
    city: Option<string>,
    totalFloors: Option<int>,
    roomsPerFloor: Option<int>,
    managerName: Option<string>,
    managerPhone: Option<string>,
    notes: Option<string>)

  const HostelFields: set<string> :=
    {"id", "name", "city", "totalFloors", "roomsPerFloor", "managerName", "managerPhone", "notes"}

  /** Set `field` to the value if there is one. */
  function Put(r: Record, field: string, v: Option<Value>): Record
  {
    match v
    case Some(x) => r[field := x]
    case None => r
  }

  function OptStr(o: Option<string>): Option<Value>
  {
    match o
    case Some(s) => Some(Str(s))
    case None => None
  }

  function OptNum(o: Option<int>): Option<Value>
  {
    match o
    case Some(n) => Some(Num(n))
    case None => None
  }

  /** The form fields as a plain object; an absent `notes` is no property at all. */
  function FormRecord(d: HostelFormData): Record
  {
    var fields := map["name" := Str(d.name), "city" := Str(d.city),
                      "totalFloors" := Num(d.totalFloors), "roomsPerFloor" := Num(d.roomsPerFloor),
                      "managerName" := Str(d.managerName), "managerPhone" := Str(d.managerPhone)];
    Put(fields, "notes", OptStr(d.notes))
  }

  /** A hostel as the plain object the store holds. */
  function ToRecord(h: Hostel): (r: Record)
    ensures HasId(r) && IdOf(r) == h.id
    ensures r.Keys <= HostelFields
  {
    map["id" := IdValue(h.id)] + FormRecord(FormOf(h))
  }

  function FormOf(h: Hostel): HostelFormData
  {
    HostelFormData(h.name, h.city, h.totalFloors, h.roomsPerFloor, h.managerName, h.managerPhone, h.notes)
  }

  predicate IsStr(r: Record, field: string)
  {
    field in r && r[field].Str?
  }

  predicate IsNum(r: Record, field: string)
  {
    field in r && r[field].Num?
  }

  /** A record with the shape of `Hostel`; further properties are allowed, as structural typing allows them. */
  predicate IsHostelRecord(r: Record)
  {
    && HasId(r)
    && IsStr(r, "name") && IsStr(r, "city")
    && IsNum(r, "totalFloors") && IsNum(r, "roomsPerFloor")
    && IsStr(r, "managerName") && IsStr(r, "managerPhone")
    && ("notes" in r ==> r["notes"].Str?)
  }

  /** Reading a hostel-shaped record as a hostel. */
  function FromRecord(r: Record): Hostel
    requires IsHostelRecord(r)
  {
    Hostel(IdOf(r), r["name"].s, r["city"].s, r["totalFloors"].n, r["roomsPerFloor"].n,
           r["managerName"].s, r["managerPhone"].s,
           if "notes" in r then Some(r["notes"].s) else None)
  }

  /** Writing a hostel and reading it back gives the same hostel. */
  lemma RecordRoundTrip(h: Hostel)
    ensures IsHostelRecord(ToRecord(h))
    ensures FromRecord(ToRecord(h)) == h
  {
    var r := ToRecord(h);
    assert r["id"] == IdValue(h.id);
    if h.notes.Some? {
      assert r["notes"] == Str(h.notes.value);
    } else {
      assert "notes" !in r;
    }
  }

  /** A hostel-shaped record without further properties is the record of the hostel it reads as. */
  lemma RecordRoundTripBack(r: Record)
    requires IsHostelRecord(r)
    requires r.Keys <= HostelFields
    ensures ToRecord(FromRecord(r)) == r
  {
    var h := FromRecord(r);
    var back := ToRecord(h);
    assert IdValue(h.id) == r["id"];
    forall f | f in HostelFields ensures (f in back <==> f in r) && (f in r ==> back[f] == r[f]) {
    }
    assert back.Keys == r.Keys;
  }

  /** `{ id: newId, ...data }`. */
  function NewHostelRecord(newId: int, data: HostelFormData): Record
  {
    map["id" := Num(newId)] + FormRecord(data)
  }

  function WithId(newId: int, data: HostelFormData): (h: Hostel)
    ensures h.id == NumId(newId) && FormOf(h) == data
  {
    Hostel(NumId(newId), data.name, data.city, data.totalFloors, data.roomsPerFloor,
           data.managerName, data.managerPhone, data.notes)
  }

  /** The created record is the record of the hostel with the new id and exactly the form fields. */
  lemma NewHostelRecordIsHostel(newId: int, data: HostelFormData)
    ensures NewHostelRecord(newId, data) == ToRecord(WithId(newId, data))
    ensures IsHostelRecord(NewHostelRecord(newId, data))
    ensures FromRecord(NewHostelRecord(newId, data)) == WithId(newId, data)
  {
    RecordRoundTrip(WithId(newId, data));
  }

  /** The properties a partial update names, as a plain object. */
  function PatchRecord(p: HostelPatch): (r: Record)
    ensures "id" !in r
  {
    var r0 := Put(map[], "name", OptStr(p.name));
    var r1 := Put(r0, "city", OptStr(p.city));
    var r2 := Put(r1, "totalFloors", OptNum(p.totalFloors));
    var r3 := Put(r2, "roomsPerFloor", OptNum(p.roomsPerFloor));
    var r4 := Put(r3, "managerName", OptStr(p.managerName));
    var r5 := Put(r4, "managerPhone", OptStr(p.managerPhone));
    Put(r5, "notes", OptStr(p.notes))
  }

  /** A hostel with the named fields replaced and every other field kept. */
  function ApplyPatch(h: Hostel, p: HostelPatch): Hostel
  {
    Hostel(h.id,
           p.name.GetOr(h.name), p.city.GetOr(h.city),
           p.totalFloors.GetOr(h.totalFloors), p.roomsPerFloor.GetOr(h.roomsPerFloor),
           p.managerName.GetOr(h.managerName), p.managerPhone.GetOr(h.managerPhone),
           if p.notes.Some? then p.notes else h.notes)
  }

  /** The property `f` of a record, if it has one. */
  function Field(r: Record, f: string): Option<Value>
  {
    if f in r then Some(r[f]) else None
  }

  lemma PutSets(r: Record, f: string, v: Option<Value>)
    ensures Field(Put(r, f, v), f) == if v.Some? then v else Field(r, f)
  {
  }

  /** Each property of the patch record is the corresponding field of the patch. */
  lemma PatchFields(p: HostelPatch)
    ensures var r := PatchRecord(p);
      && Field(r, "name") == OptStr(p.name)
      && Field(r, "city") == OptStr(p.city)
      && Field(r, "totalFloors") == OptNum(p.totalFloors)
      && Field(r, "roomsPerFloor") == OptNum(p.roomsPerFloor)
      && Field(r, "managerName") == OptStr(p.managerName)
      && Field(r, "managerPhone") == OptStr(p.managerPhone)
      && Field(r, "notes") == OptStr(p.notes)
  {
    var r0 := Put(map[], "name", OptStr(p.name));
    var r1 := Put(r0, "city", OptStr(p.city));
    var r2 := Put(r1, "totalFloors", OptNum(p.totalFloors));
    var r3 := Put(r2, "roomsPerFloor", OptNum(p.roomsPerFloor));
    var r4 := Put(r3, "managerName", OptStr(p.managerName));
    var r5 := Put(r4, "managerPhone", OptStr(p.managerPhone));
    PutSets(map[], "name", OptStr(p.name));
    PutSets(r0, "city", OptStr(p.city));
    PutSets(r1, "totalFloors", OptNum(p.totalFloors));
    PutSets(r2, "roomsPerFloor", OptNum(p.roomsPerFloor));
    PutSets(r3, "managerName", OptStr(p.managerName));
    PutSets(r4, "managerPhone", OptStr(p.managerPhone));
    PutSets(r5, "notes", OptStr(p.notes));
  }

  /**
   * Merging a partial update into a hostel-shaped record gives a
   * hostel-shaped record that reads as the patched hostel, with its id kept.
   */
  lemma PatchedRecordIsPatchedHostel(r: Record, p: HostelPatch)
    requires IsHostelRecord(r)
    ensures IsHostelRecord(Db.ShallowMerge(r, PatchRecord(p)))
    ensures FromRecord(Db.ShallowMerge(r, PatchRecord(p))) == ApplyPatch(FromRecord(r), p)
  {
    var u := PatchRecord(p);
    PatchFields(p);
    MergedId(r, u);
    MergedStr(r, u, "name", p.name);
    MergedStr(r, u, "city", p.city);
    MergedNum(r, u, "totalFloors", p.totalFloors);
    MergedNum(r, u, "roomsPerFloor", p.roomsPerFloor);
    MergedStr(r, u, "managerName", p.managerName);
    MergedStr(r, u, "managerPhone", p.managerPhone);
    MergedNotes(r, u, p.notes);
  }

  /** An update without an id keeps the record's id. */
  lemma MergedId(r: Record, u: Record)
    requires HasId(r) && "id" !in u
    ensures HasId(Db.ShallowMerge(r, u)) && IdOf(Db.ShallowMerge(r, u)) == IdOf(r)
  {
    MergeField(r, u, "id");
  }

  /** A text property after merging an optional text over it. */
  lemma MergedStr(r: Record, u: Record, f: string, o: Option<string>)
    requires IsStr(r, f) && Field(u, f) == OptStr(o)
    ensures IsStr(Db.ShallowMerge(r, u), f) && Db.ShallowMerge(r, u)[f].s == o.GetOr(r[f].s)
  {
    MergeField(r, u, f);
  }

  /** A number property after merging an optional number over it. */
  lemma MergedNum(r: Record, u: Record, f: string, o: Option<int>)
    requires IsNum(r, f) && Field(u, f) == OptNum(o)
    ensures IsNum(Db.ShallowMerge(r, u), f) && Db.ShallowMerge(r, u)[f].n == o.GetOr(r[f].n)
  {
    MergeField(r, u, f);
  }

  /** The optional notes after merging optional notes over them. */
  lemma MergedNotes(r: Record, u: Record, o: Option<string>)
    requires "notes" in r ==> r["notes"].Str?
    requires Field(u, "notes") == OptStr(o)
    ensures var m := Db.ShallowMerge(r, u);
      && ("notes" in m ==> m["notes"].Str?)
      && (if "notes" in m then Some(m["notes"].s) else None)
         == if o.Some? then o else if "notes" in r then Some(r["notes"].s) else None
  {
    MergeField(r, u, "notes");
  }

  /** A property of a merge comes from the update if the update has it, and from the base otherwise. */
  lemma MergeField(r: Record, u: Record, f: string)
    ensures Field(Db.ShallowMerge(r, u), f) == if f in u then Field(u, f) else Field(r, f)
  {
  }
}
