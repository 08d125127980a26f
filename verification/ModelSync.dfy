/** Synchronising model records with the official catalogue: a preview lists the fields that differ, a run creates
    what is missing and overwrites what was chosen, and both go through one table of vendors. */
module ModelSync {
  import opened GoStrings
  import opened Sequences
  import opened Wrappers

  datatype UpstreamVendor = UpstreamVendor(description: string, icon: string, status: int)
  datatype UpstreamModel = UpstreamModel(description: string, icon: string, tags: string, vendorName: string,
                                         nameRule: int, status: int)
  datatype Vendor = Vendor(id: int, name: string, description: string, icon: string, status: int)
  datatype Record = Record(description: string, icon: string, tags: string, vendorId: int, nameRule: int, status: int,
                           syncOfficial: int)
  datatype Overwrite = Overwrite(name: string, fields: seq<string>)

  /** What a run meets: the catalogue, and the inserts and updates the database refuses. */
  datatype Env = Env(vendors: map<string, UpstreamVendor>, models: map<string, UpstreamModel>,
                     refusedVendors: set<string>, refusedModels: set<string>, refusedUpdates: set<string>)

  /** The table of vendors, the id the next one gets, and a run's cache and count of insertions. */
  datatype Directory = Directory(vendors: seq<Vendor>, nextId: int, cache: map<string, int>, inserted: int)

  /** The directory, the table of records, and the lists a run reports. */
  datatype State = State(dir: Directory, models: map<string, Record>,
                         created: seq<string>, updated: seq<string>, skipped: seq<string>)

  function Coalesce(a: string, b: string): string {
    if TrimSpace(a) != "" then a else b
  }

  function ChooseStatus(primary: int, fallback: int): int {
    if primary == 0 && fallback != 0 then fallback
    else if primary != 0 then primary
    else 1
  }

  // ----- vendors -----

  function FindByName(vendors: seq<Vendor>, name: string): Option<int> {
    if vendors == [] then None
    else if vendors[0].name == name then Some(vendors[0].id)
    else FindByName(vendors[1..], name)
  }

  function NameOf(vendors: seq<Vendor>, id: int): string {
    if vendors == [] then ""
    else if vendors[0].id == id then vendors[0].name
    else NameOf(vendors[1..], id)
  }

  /** Ids are handed out in ascending order and never twice; names are unique. */
  ghost predicate VendorsOk(vendors: seq<Vendor>, nextId: int) {
    && (forall i :: 0 <= i < |vendors| ==> 1 <= vendors[i].id < nextId)
    && (forall i, j :: 0 <= i < j < |vendors| ==> vendors[i].id < vendors[j].id && vendors[i].name != vendors[j].name)
    && 1 <= nextId
  }

  lemma {:induction false} FindFinds(vendors: seq<Vendor>, name: string)
    ensures FindByName(vendors, name) == None <==> forall v :: v in vendors ==> v.name != name
    ensures FindByName(vendors, name).Some? ==>
              exists i :: 0 <= i < |vendors| && vendors[i].name == name &&
                          vendors[i].id == FindByName(vendors, name).value
  {
    if vendors != [] {
      FindFinds(vendors[1..], name);
      assert vendors == [vendors[0]] + vendors[1..];
      if vendors[0].name != name && FindByName(vendors[1..], name).Some? {
        var i :| 0 <= i < |vendors| - 1 && vendors[1..][i].name == name &&
                 vendors[1..][i].id == FindByName(vendors, name).value;
        assert vendors[i + 1].name == name;
      }
    }
  }

  lemma {:induction false} NameOfAt(vendors: seq<Vendor>, nextId: int, i: nat)
    requires VendorsOk(vendors, nextId) && i < |vendors|
    ensures NameOf(vendors, vendors[i].id) == vendors[i].name
  {
    if i > 0 {
      NameOfAt(vendors[1..], nextId, i - 1);
    }
  }

  lemma {:induction false} AppendVendor(vendors: seq<Vendor>, v: Vendor, name: string, id: int)
    ensures FindByName(vendors + [v], name) ==
            if FindByName(vendors, name).Some? then FindByName(vendors, name)
            else if v.name == name then Some(v.id) else None
    ensures v.id != id ==> NameOf(vendors + [v], id) == NameOf(vendors, id)
  {
    if vendors == [] {
      assert vendors + [v] == [v];
    } else {
      assert (vendors + [v])[1..] == vendors[1..] + [v];
      AppendVendor(vendors[1..], v, name, id);
    }
  }

  function NewVendor(env: Env, id: int, name: string): Vendor {
    var up := if name in env.vendors then env.vendors[name] else UpstreamVendor("", "", 0);
    Vendor(id, name, up.description, Coalesce(up.icon, ""), ChooseStatus(up.status, 1))
  }

  /** The vendor id for a name: none for the empty name, else cached, found, created, or 0 when refused. */
  function EnsureVendor(env: Env, d: Directory, name: string): (Directory, int) {
    if name == "" then (d, 0)
    else if name in d.cache then (d, d.cache[name])
    else if FindByName(d.vendors, name).Some? then
      var id := FindByName(d.vendors, name).value;
      (d.(cache := d.cache[name := id]), id)
    else if name in env.refusedVendors then (d.(cache := d.cache[name := 0]), 0)
    else
      (Directory(d.vendors + [NewVendor(env, d.nextId, name)], d.nextId + 1, d.cache[name := d.nextId], d.inserted + 1),
       d.nextId)
  }

  predicate Refused(env: Env, vendors: seq<Vendor>, name: string) {
    name in env.refusedVendors && FindByName(vendors, name) == None
  }

  predicate EntryOk(env: Env, vendors: seq<Vendor>, name: string, id: int) {
    name != "" && if id == 0 then Refused(env, vendors, name) else FindByName(vendors, name) == Some(id)
  }

  /** Unique ids and names, and a cache that agrees with the table. */
  ghost predicate DirectoryOk(env: Env, d: Directory) {
    && VendorsOk(d.vendors, d.nextId)
    && forall name :: name in d.cache ==> EntryOk(env, d.vendors, name, d.cache[name])
  }

  /** What later steps may rely on: no id and no cached name ever changes its meaning. */
  ghost predicate Extends(d: Directory, e: Directory) {
    && d.vendors <= e.vendors && d.nextId <= e.nextId && |e.vendors| - |d.vendors| == e.inserted - d.inserted
    && (forall id :: id < d.nextId ==> NameOf(e.vendors, id) == NameOf(d.vendors, id))
    && (forall name :: name in d.cache ==> name in e.cache && e.cache[name] == d.cache[name])
  }

  /** A vendor as the catalogue describes it, with an empty icon for a blank one, and 1 for a missing status. */
  predicate Described(env: Env, v: Vendor) {
    if v.name in env.vendors then
      var up := env.vendors[v.name];
      && v.description == up.description && v.icon == (if TrimSpace(up.icon) == "" then "" else up.icon)
      && v.status == (if up.status == 0 then 1 else up.status)
    else (v.description, v.icon, v.status) == ("", "", 1)
  }

  /** No refusal changes, and every new vendor is as the catalogue describes it. */
  ghost predicate Continues(env: Env, d: Directory, e: Directory) {
    && (forall n :: Refused(env, e.vendors, n) <==> Refused(env, d.vendors, n))
    && (forall i :: |d.vendors| <= i < |e.vendors| ==> Described(env, e.vendors[i]))
  }

  /** The id a name stands for in a run. */
  function IdOf(d: Directory, name: string): int {
    if name in d.cache then d.cache[name] else 0
  }

  lemma FoundIsNamed(vendors: seq<Vendor>, nextId: int, name: string)
    requires VendorsOk(vendors, nextId) && FindByName(vendors, name).Some?
    ensures var id := FindByName(vendors, name).value; 1 <= id < nextId && NameOf(vendors, id) == name
  {
    FindFinds(vendors, name);
    var i :| 0 <= i < |vendors| && vendors[i].name == name && vendors[i].id == FindByName(vendors, name).value;
    NameOfAt(vendors, nextId, i);
  }

  lemma AppendOk(vendors: seq<Vendor>, nextId: int, v: Vendor)
    requires VendorsOk(vendors, nextId) && v.id == nextId && FindByName(vendors, v.name) == None
    ensures VendorsOk(vendors + [v], nextId + 1)
  {
    FindFinds(vendors, v.name);
    assert forall i :: 0 <= i < |vendors| ==> vendors[i] in vendors;
  }

  lemma InsertWorks(env: Env, d: Directory, name: string)
    requires DirectoryOk(env, d) && name != "" && name !in d.cache
    requires FindByName(d.vendors, name) == None && name !in env.refusedVendors
    ensures var e := EnsureVendor(env, d, name).0;
      DirectoryOk(env, e) && Extends(d, e) && Continues(env, d, e) && NameOf(e.vendors, d.nextId) == name
  {
    var e := EnsureVendor(env, d, name).0;
    var v := NewVendor(env, d.nextId, name);
    hide FindByName, NameOf, VendorsOk;
    AppendOk(d.vendors, d.nextId, v);
    forall n
      ensures FindByName(e.vendors, n) == (if FindByName(d.vendors, n).Some? then FindByName(d.vendors, n)
                                           else if v.name == n then Some(v.id) else None)
    {
      AppendVendor(d.vendors, v, n, 0);
    }
    forall i | i != v.id ensures NameOf(e.vendors, i) == NameOf(d.vendors, i) {
      AppendVendor(d.vendors, v, "", i);
    }
    FoundIsNamed(e.vendors, e.nextId, name);
  }

  /** Unique names stay unique, so no vendor is created twice; the id names that vendor; and it is 0 only for
      the empty name and for a vendor the database refuses. */
  lemma EnsureVendorWorks(env: Env, d: Directory, name: string)
    requires DirectoryOk(env, d)
    ensures var (e, id) := EnsureVendor(env, d, name);
      && DirectoryOk(env, e) && Extends(d, e) && Continues(env, d, e)
      && 0 <= id < e.nextId && d.nextId <= e.nextId
      && (name != "" ==> name in e.cache) && IdOf(e, name) == id
      && (id == 0 <==> name == "" || Refused(env, d.vendors, name))
      && (id != 0 ==> NameOf(e.vendors, id) == name)
  {
    hide FindByName, NameOf;
    if FindByName(d.vendors, name).Some? {
      FoundIsNamed(d.vendors, d.nextId, name);
    } else if name != "" && name !in d.cache && name !in env.refusedVendors {
      InsertWorks(env, d, name);
    }
  }

  // ----- creating and overwriting -----

  function Lower(s: string): string {
    seq(|s|, i requires 0 <= i < |s| => if 'A' <= s[i] <= 'Z' then s[i] + ' ' else s[i])
  }

  predicate ContainsField(fields: seq<string>, key: string) {
    exists i :: 0 <= i < |fields| && Lower(TrimSpace(fields[i])) == Lower(TrimSpace(key))
  }

  /** The fields that can be in conflict and be chosen, and their names in requests. */
  datatype Field = Description | Icon | Tags | VendorName | NameRule | Status

  function Key(field: Field): string {
    match field
    case Description => "description"
    case Icon => "icon"
    case Tags => "tags"
    case VendorName => "vendor"
    case NameRule => "name_rule"
    case Status => "status"
  }

  predicate Chooses(fields: seq<string>, field: Field) {
    ContainsField(fields, Key(field))
  }

  predicate AnyField(fields: seq<string>) {
    exists f: Field :: Chooses(fields, f)
  }

  function ApplyFields(local: Record, up: UpstreamModel, fields: seq<string>, vendorId: int): Record {
    Record(if Chooses(fields, Description) then up.description else local.description,
           if Chooses(fields, Icon) then up.icon else local.icon,
           if Chooses(fields, Tags) then up.tags else local.tags,
           if Chooses(fields, VendorName) then vendorId else local.vendorId,
           if Chooses(fields, NameRule) then up.nameRule else local.nameRule,
           if Chooses(fields, Status) then ChooseStatus(up.status, local.status) else local.status,
           local.syncOfficial)
  }

  /** A new record takes everything from the catalogue, and its flag for official synchronisation is off. */
  function NewRecord(up: UpstreamModel, vendorId: int): Record {
    Record(up.description, up.icon, up.tags, vendorId, up.nameRule, ChooseStatus(up.status, 1), 0)
  }

  function CreateOne(env: Env, s: State, name: string): State {
    if name !in env.models || (name in s.models && s.models[name].syncOfficial == 0) then
      s.(skipped := s.skipped + [name])
    else
      var (dir, id) := EnsureVendor(env, s.dir, env.models[name].vendorName);
      if name in s.models || name in env.refusedModels then s.(dir := dir, skipped := s.skipped + [name])
      else s.(dir := dir, models := s.models[name := NewRecord(env.models[name], id)], created := s.created + [name])
  }

  function CreateAll(env: Env, s: State, missing: seq<string>): State {
    if missing == [] then s
    else CreateOne(env, CreateAll(env, s, missing[..|missing| - 1]), missing[|missing| - 1])
  }

  predicate Synced(env: Env, s: State, name: string) {
    name in env.models && name in s.models && s.models[name].syncOfficial != 0
  }

  function OverwriteOne(env: Env, s: State, ow: Overwrite): State {
    if !Synced(env, s, ow.name) then s
    else
      var up := env.models[ow.name];
      var (dir, id) := EnsureVendor(env, s.dir, up.vendorName);
      if !AnyField(ow.fields) || ow.name in env.refusedUpdates then s.(dir := dir)
      else s.(dir := dir, models := s.models[ow.name := ApplyFields(s.models[ow.name], up, ow.fields, id)],
              updated := s.updated + [ow.name])
  }

  function OverwriteAll(env: Env, s: State, overwrites: seq<Overwrite>): State {
    if overwrites == [] then s
    else OverwriteOne(env, OverwriteAll(env, s, overwrites[..|overwrites| - 1]), overwrites[|overwrites| - 1])
  }

  function Sync(env: Env, s: State, missing: seq<string>, overwrites: seq<Overwrite>): State {
    OverwriteAll(env, CreateAll(env, s, missing), overwrites)
  }

  // ----- the preview -----

  predicate Conflict(field: Field, local: Record, localVendor: string, up: UpstreamModel) {
    match field
    case Description => TrimSpace(local.description) != TrimSpace(up.description)
    case Icon => TrimSpace(local.icon) != TrimSpace(up.icon)
    case Tags => TrimSpace(local.tags) != TrimSpace(up.tags)
    case VendorName => TrimSpace(localVendor) != TrimSpace(up.vendorName)
    case NameRule => local.nameRule != up.nameRule
    case Status => local.status != ChooseStatus(up.status, local.status)
  }

  /** Whether the preview lists this field of this model. */
  predicate InConflict(env: Env, s: State, name: string, field: Field) {
    Synced(env, s, name) &&
    Conflict(field, s.models[name], NameOf(s.dir.vendors, s.models[name].vendorId), env.models[name])
  }

  // ----- what a run keeps -----

  /** Records refer to vendors by ids that have been handed out, whether or not the vendor is still there. */
  ghost predicate RecordsOk(s: State) {
    forall m :: m in s.models ==> s.models[m].vendorId < s.dir.nextId
  }

  ghost predicate Ok(env: Env, s: State) {
    DirectoryOk(env, s.dir) && RecordsOk(s)
  }

  ghost predicate Grows(env: Env, s: State, t: State) {
    Ok(env, t) && Extends(s.dir, t.dir) && Continues(env, s.dir, t.dir)
  }

  lemma GrowsReflexive(env: Env, s: State)
    requires Ok(env, s)
    ensures Grows(env, s, s)
  {
    hide DirectoryOk, Refused, NameOf;
  }

  lemma GrowsChains(env: Env, s: State, t: State, u: State)
    requires Grows(env, s, t) && Grows(env, t, u)
    ensures Grows(env, s, u)
  {
    hide FindByName, NameOf, Refused;
  }

  predicate Known(d: Directory, name: string) {
    name == "" || name in d.cache
  }

  predicate IsNew(env: Env, s: State, m: string) {
    && m in s.models && m in env.models
    && s.models[m] == NewRecord(env.models[m], IdOf(s.dir, env.models[m].vendorName))
    && Known(s.dir, env.models[m].vendorName)
  }

  lemma CreateOneWorks(env: Env, s: State, name: string)
    requires Ok(env, s)
    ensures var t := CreateOne(env, s, name);
      && Grows(env, s, t)
      && (forall m :: m in s.models ==> m in t.models && t.models[m] == s.models[m])
      && (forall m :: m in t.models && m !in s.models ==> m == name && IsNew(env, t, m))
      && (name in t.models <==> name in s.models || (name in env.models && name !in env.refusedModels))
  {
    if name in env.models {
      EnsureVendorWorks(env, s.dir, env.models[name].vendorName);
    }
    hide EnsureVendor, Extends, Continues, DirectoryOk, IdOf;
  }

  lemma ApplyVendor(local: Record, up: UpstreamModel, fields: seq<string>, id: int)
    ensures ApplyFields(local, up, fields, id).vendorId in {local.vendorId, id}
    ensures !AnyField(fields) ==> ApplyFields(local, up, fields, id) == local
  {
    hide Chooses;
  }

  lemma OverwriteOneWorks(env: Env, s: State, ow: Overwrite)
    requires Ok(env, s)
    ensures var t := OverwriteOne(env, s, ow);
      && Grows(env, s, t)
      && t.models.Keys == s.models.Keys
      && (forall m :: m in s.models && m != ow.name ==> t.models[m] == s.models[m])
      && (Synced(env, s, ow.name) ==>
            var up := env.models[ow.name];
            && Known(t.dir, up.vendorName)
            && t.models[ow.name] == if ow.name in env.refusedUpdates then s.models[ow.name]
                                    else ApplyFields(s.models[ow.name], up, ow.fields, IdOf(t.dir, up.vendorName)))
      && (!Synced(env, s, ow.name) ==> t.models == s.models)
  {
    hide EnsureVendor, AnyField, ApplyFields, IdOf, Continues, DirectoryOk, Extends;
    if Synced(env, s, ow.name) {
      var up := env.models[ow.name];
      EnsureVendorWorks(env, s.dir, up.vendorName);
      ApplyVendor(s.models[ow.name], up, ow.fields, EnsureVendor(env, s.dir, up.vendorName).1);
    } else {
      GrowsReflexive(env, s);
    }
  }

  lemma KnownStays(env: Env, s: State, t: State, name: string)
    requires Ok(env, s) && Grows(env, s, t) && Known(s.dir, name)
    ensures Known(t.dir, name) && IdOf(t.dir, name) == IdOf(s.dir, name)
  {
  }

  lemma {:induction false} CreateAllWorks(env: Env, s: State, missing: seq<string>)
    requires Ok(env, s)
    ensures var t := CreateAll(env, s, missing);
      && Grows(env, s, t)
      && (forall m :: m in s.models ==> m in t.models && t.models[m] == s.models[m])
      && (forall m :: m in t.models && m !in s.models ==> IsNew(env, t, m))
      && (forall m :: m in t.models <==>
            m in s.models || (m in missing && m in env.models && m !in env.refusedModels))
  {
    hide Ok, Known, IdOf, NewRecord, CreateOne;
    if missing == [] {
      GrowsReflexive(env, s);
    } else {
      var front, name := missing[..|missing| - 1], missing[|missing| - 1];
      assert missing == front + [name];
      CreateAllWorks(env, s, front);
      var r := CreateAll(env, s, front);
      CreateOneWorks(env, r, name);
      var t := CreateOne(env, r, name);
      GrowsChains(env, s, r, t);
      forall m | m in r.models && m !in s.models ensures IsNew(env, t, m) {
        KnownStays(env, r, t, env.models[m].vendorName);
      }
    }
  }

  /** All the fields the requests choose for a model. */
  function Chosen(overwrites: seq<Overwrite>, name: string): seq<string> {
    if overwrites == [] then []
    else
      var ow := overwrites[|overwrites| - 1];
      Chosen(overwrites[..|overwrites| - 1], name) + if ow.name == name then ow.fields else []
  }

  lemma ChoosesEither(first: seq<string>, second: seq<string>, field: Field)
    ensures Chooses(first + second, field) <==> Chooses(first, field) || Chooses(second, field)
  {
    hide Lower, TrimSpace, Key;
    var all := first + second;
    assert forall i :: 0 <= i < |first| ==> all[i] == first[i];
    assert forall i :: 0 <= i < |second| ==> all[|first| + i] == second[i];
  }

  lemma ApplyTwice(local: Record, up: UpstreamModel, first: seq<string>, second: seq<string>, id: int)
    ensures ApplyFields(ApplyFields(local, up, first, id), up, second, id) == ApplyFields(local, up, first + second, id)
  {
    forall f ensures Chooses(first + second, f) <==> Chooses(first, f) || Chooses(second, f) {
      ChoosesEither(first, second, f);
    }
    hide Chooses;
  }

  lemma ApplyNothing(local: Record, up: UpstreamModel, id: int)
    ensures ApplyFields(local, up, [], id) == local
  {
  }

  /** Whatever the order and number of requests, a record ends up with exactly the chosen fields replaced. */
  lemma {:induction false} OverwriteAllWorks(env: Env, s: State, overwrites: seq<Overwrite>, n: string)
    requires Ok(env, s)
    ensures var t := OverwriteAll(env, s, overwrites);
      && Grows(env, s, t)
      && t.models.Keys == s.models.Keys
      && (Synced(env, s, n) ==>
            var up := env.models[n];
            && (Chosen(overwrites, n) != [] ==> Known(t.dir, up.vendorName))
            && t.models[n] == if n in env.refusedUpdates then s.models[n]
                              else ApplyFields(s.models[n], up, Chosen(overwrites, n), IdOf(t.dir, up.vendorName)))
      && (n in s.models && !Synced(env, s, n) ==> t.models[n] == s.models[n])
  {
    hide Ok, Known, IdOf, Chooses, AnyField, OverwriteOne;
    if overwrites == [] {
      GrowsReflexive(env, s);
      if Synced(env, s, n) {
        ApplyNothing(s.models[n], env.models[n], IdOf(s.dir, env.models[n].vendorName));
      }
    } else {
      var front, ow := overwrites[..|overwrites| - 1], overwrites[|overwrites| - 1];
      OverwriteAllWorks(env, s, front, n);
      var r := OverwriteAll(env, s, front);
      OverwriteOneWorks(env, r, ow);
      var t := OverwriteOne(env, r, ow);
      GrowsChains(env, s, r, t);
      if Synced(env, s, n) {
        var up := env.models[n];
        var id := IdOf(t.dir, up.vendorName);
        if Chosen(front, n) != [] {
          KnownStays(env, r, t, up.vendorName);
        } else {
          ApplyNothing(s.models[n], up, IdOf(r.dir, up.vendorName));
          ApplyNothing(s.models[n], up, id);
        }
        assert n !in env.refusedUpdates ==> r.models[n] == ApplyFields(s.models[n], up, Chosen(front, n), id);
        if ow.name == n {
          ApplyTwice(s.models[n], up, Chosen(front, n), ow.fields, id);
        } else {
          assert Chosen(overwrites, n) == Chosen(front, n);
        }
      }
    }
  }

  // ----- what a run achieves -----

  lemma {:induction false} NoVendorZero(vendors: seq<Vendor>, nextId: int)
    requires VendorsOk(vendors, nextId)
    ensures NameOf(vendors, 0) == ""
  {
    if vendors != [] {
      NoVendorZero(vendors[1..], nextId);
    }
  }

  lemma IdNames(env: Env, d: Directory, name: string)
    requires DirectoryOk(env, d) && Known(d, name)
    ensures NameOf(d.vendors, IdOf(d, name)) == if name == "" || Refused(env, d.vendors, name) then "" else name
  {
    NoVendorZero(d.vendors, d.nextId);
    if name != "" && IdOf(d, name) != 0 {
      FoundIsNamed(d.vendors, d.nextId, name);
    }
  }

  lemma Empties(field: Field)
    ensures TrimSpace("") == "" && !Chooses([], field)
  {
  }

  lemma ConflictAfter(local: Record, up: UpstreamModel, fields: seq<string>, id: int, before: string, after: string,
                      field: Field)
    requires !Chooses(fields, VendorName) ==> after == before
    ensures Conflict(field, ApplyFields(local, up, fields, id), after, up) <==>
            if Chooses(fields, field) then field == VendorName && TrimSpace(after) != TrimSpace(up.vendorName)
            else Conflict(field, local, before, up)
  {
    hide Chooses, TrimSpace;
  }

  /** After a run, a field is in conflict exactly when it was before and was not chosen, or the database refuses to
      update the record, or it is a chosen vendor that the database refuses to insert. */
  lemma RunResolves(env: Env, s: State, missing: seq<string>, overwrites: seq<Overwrite>, n: string, field: Field)
    requires Ok(env, s)
    ensures InConflict(env, Sync(env, s, missing, overwrites), n, field) <==>
            Synced(env, s, n) &&
            if Chooses(Chosen(overwrites, n), field) && n !in env.refusedUpdates
            then field == VendorName && Refused(env, s.dir.vendors, env.models[n].vendorName)
                 && TrimSpace(env.models[n].vendorName) != ""
            else InConflict(env, s, n, field)
  {
    hide FindByName, NameOf, Refused, Chooses, Known, IdOf, CreateAll, OverwriteAll, Conflict, TrimSpace, VendorsOk;
    CreateAllWorks(env, s, missing);
    var r := CreateAll(env, s, missing);
    OverwriteAllWorks(env, r, overwrites, n);
    var t := OverwriteAll(env, r, overwrites);
    if Synced(env, s, n) {
      var up, fields, id := env.models[n], Chosen(overwrites, n), t.models[n].vendorId;
      var before, after := NameOf(s.dir.vendors, s.models[n].vendorId), NameOf(t.dir.vendors, id);
      GrowsChains(env, s, r, t);
      Empties(VendorName);
      if Chooses(fields, VendorName) && n !in env.refusedUpdates {
        IdNames(env, t.dir, up.vendorName);
      }
      if n !in env.refusedUpdates {
        ConflictAfter(s.models[n], up, fields, IdOf(t.dir, up.vendorName), before, after, field);
      }
    }
  }

  function Note(fields: seq<Field>, conflict: bool, field: Field): seq<Field> {
    if conflict then fields + [field] else fields
  }

  /** The fields the preview lists for a model, in its order. */
  function ConflictFields(local: Record, localVendor: string, up: UpstreamModel): seq<Field> {
    var f0 := Note([], Conflict(Description, local, localVendor, up), Description);
    var f1 := Note(f0, Conflict(Icon, local, localVendor, up), Icon);
    var f2 := Note(f1, Conflict(Tags, local, localVendor, up), Tags);
    var f3 := Note(f2, Conflict(VendorName, local, localVendor, up), VendorName);
    var f4 := Note(f3, Conflict(NameRule, local, localVendor, up), NameRule);
    Note(f4, Conflict(Status, local, localVendor, up), Status)
  }

  /** What the preview lists for a model. */
  function Preview(env: Env, s: State, name: string): seq<Field> {
    if Synced(env, s, name) then
      ConflictFields(s.models[name], NameOf(s.dir.vendors, s.models[name].vendorId), env.models[name])
    else []
  }

  lemma PreviewLists(env: Env, s: State, name: string, field: Field)
    ensures field in Preview(env, s, name) <==> InConflict(env, s, name, field)
  {
    hide NameOf, Conflict;
  }

  function Keys(fields: seq<Field>): seq<string> {
    seq(|fields|, i requires 0 <= i < |fields| => Key(fields[i]))
  }

  predicate Plain(word: string) {
    word != "" && forall i :: 0 <= i < |word| ==> 'a' <= word[i] <= 'z' || word[i] == '_'
  }

  lemma PlainIsFixed(word: string)
    requires Plain(word)
    ensures Lower(TrimSpace(word)) == word
  {
    TrimmedIsFixed(word);
    assert Lower(word) == word;
  }

  lemma KeyIsPlain(field: Field)
    ensures Plain(Key(field))
  {
  }

  lemma KeysDiffer(f: Field, g: Field)
    ensures Lower(TrimSpace(Key(f))) == Lower(TrimSpace(Key(g))) <==> f == g
  {
    KeyIsPlain(f);
    KeyIsPlain(g);
    PlainIsFixed(Key(f));
    PlainIsFixed(Key(g));
    hide Lower, TrimSpace, Plain;
  }

  /** Field names survive the way the requests are read. */
  lemma KeysChoose(fields: seq<Field>, field: Field)
    ensures Chooses(Keys(fields), field) <==> field in fields
  {
    hide Lower, TrimSpace, Key;
    forall i | 0 <= i < |fields|
      ensures Lower(TrimSpace(Keys(fields)[i])) == Lower(TrimSpace(Key(field))) <==> fields[i] == field
    {
      KeysDiffer(fields[i], field);
    }
  }

  /** The requests that take over everything the preview lists. */
  function Everything(env: Env, s: State, names: seq<string>): seq<Overwrite> {
    seq(|names|, i requires 0 <= i < |names| => Overwrite(names[i], Keys(Preview(env, s, names[i]))))
  }

  lemma {:induction false} EverythingChooses(env: Env, s: State, names: seq<string>, n: string, field: Field)
    ensures Chooses(Chosen(Everything(env, s, names), n), field) <==> n in names && InConflict(env, s, n, field)
  {
    hide InConflict, Preview, Chooses, Keys;
    if names == [] {
      Empties(field);
    } else {
      var front, last := names[..|names| - 1], names[|names| - 1];
      assert Everything(env, s, names)[..|names| - 1] == Everything(env, s, front);
      EverythingChooses(env, s, front, n, field);
      assert names == front + [last];
      var own := if last == n then Keys(Preview(env, s, n)) else [];
      ChoosesEither(Chosen(Everything(env, s, front), n), own, field);
      Empties(field);
      KeysChoose(Preview(env, s, n), field);
      PreviewLists(env, s, n, field);
    }
  }

  /** Preview and then take over everything: the next preview lists nothing, except what the database refused, a
      vendor or the update of a record. */
  lemma PreviewThenSync(env: Env, s: State, missing: seq<string>, names: seq<string>, n: string, field: Field)
    requires Ok(env, s) && (forall m :: Synced(env, s, m) ==> m in names)
    ensures field in Preview(env, Sync(env, s, missing, Everything(env, s, names)), n) <==>
            && InConflict(env, s, n, field)
            && (n in env.refusedUpdates ||
                (field == VendorName && Refused(env, s.dir.vendors, env.models[n].vendorName) &&
                 TrimSpace(env.models[n].vendorName) != ""))
  {
    hide Sync, Everything, NameOf, Refused, Conflict, TrimSpace, Chooses, Key;
    var overwrites := Everything(env, s, names);
    PreviewLists(env, Sync(env, s, missing, overwrites), n, field);
    EverythingChooses(env, s, names, n, field);
    RunResolves(env, s, missing, overwrites, n, field);
  }

  /** What a run creates: each missing model the catalogue knows and the database takes, as the catalogue describes it,
      under the named vendor. Its flag is off, so neither this run nor any later preview touches it. */
  lemma CreatedExactly(env: Env, s: State, missing: seq<string>, overwrites: seq<Overwrite>, n: string)
    requires Ok(env, s) && n !in s.models
    ensures var t := Sync(env, s, missing, overwrites);
      && (n in t.models <==> n in missing && n in env.models && n !in env.refusedModels)
      && (n in t.models ==>
            var up, r := env.models[n], t.models[n];
            && r == Record(up.description, up.icon, up.tags, r.vendorId, up.nameRule,
                           if up.status == 0 then 1 else up.status, 0)
            && (NameOf(t.dir.vendors, r.vendorId) == up.vendorName || Refused(env, s.dir.vendors, up.vendorName))
            && Preview(env, t, n) == [])
  {
    hide FindByName, NameOf, Refused, Known, IdOf, CreateAll, OverwriteAll, VendorsOk, ConflictFields, DirectoryOk;
    CreateAllWorks(env, s, missing);
    var r := CreateAll(env, s, missing);
    OverwriteAllWorks(env, r, overwrites, n);
    var t := OverwriteAll(env, r, overwrites);
    GrowsChains(env, s, r, t);
    if n in r.models {
      KnownStays(env, r, t, env.models[n].vendorName);
      IdNames(env, t.dir, env.models[n].vendorName);
    }
  }

  /** Some request asks for this field of this model, whatever the case of its letters and the space around it. */
  ghost predicate Asked(overwrites: seq<Overwrite>, name: string, word: string) {
    exists k :: 0 <= k < |overwrites| && overwrites[k].name == name && AsksFor(overwrites[k].fields, word)
  }

  predicate AsksFor(fields: seq<string>, word: string) {
    exists i :: 0 <= i < |fields| && Lower(TrimSpace(fields[i])) == word
  }

  lemma ChoosesByWord(fields: seq<string>, field: Field)
    ensures Chooses(fields, field) <==> AsksFor(fields, Key(field))
  {
    KeyIsPlain(field);
    PlainIsFixed(Key(field));
    hide Key, Lower, TrimSpace, Plain;
  }

  lemma AskedGrows(front: seq<Overwrite>, ow: Overwrite, name: string, word: string)
    ensures Asked(front + [ow], name, word) <==>
            Asked(front, name, word) || (ow.name == name && AsksFor(ow.fields, word))
  {
    hide Lower, TrimSpace, AsksFor;
    var all := front + [ow];
    assert all[|front|] == ow && forall k :: 0 <= k < |front| ==> all[k] == front[k];
    if Asked(front, name, word) {
      var k :| 0 <= k < |front| && front[k].name == name && AsksFor(front[k].fields, word);
      assert all[k].name == name;
    }
  }

  lemma {:induction false} ChosenExactly(overwrites: seq<Overwrite>, name: string, field: Field)
    ensures Chooses(Chosen(overwrites, name), field) <==> Asked(overwrites, name, Key(field))
  {
    hide Key, Chooses, Asked, AsksFor;
    if overwrites == [] {
      Empties(field);
      NotAsked(name, Key(field));
    } else {
      var front, ow := overwrites[..|overwrites| - 1], overwrites[|overwrites| - 1];
      assert overwrites == front + [ow];
      ChosenExactly(front, name, field);
      ChoosesEither(Chosen(front, name), if ow.name == name then ow.fields else [], field);
      Empties(field);
      ChoosesByWord(ow.fields, field);
      AskedGrows(front, ow, name, Key(field));
    }
  }

  lemma NotAsked(name: string, word: string)
    ensures !Asked([], name, word)
  {
  }

  /** A record with the fields that were asked for taken over. */
  lemma AskedFields(local: Record, up: UpstreamModel, overwrites: seq<Overwrite>, n: string, id: int)
    ensures ApplyFields(local, up, Chosen(overwrites, n), id) ==
            Record(if Asked(overwrites, n, "description") then up.description else local.description,
                   if Asked(overwrites, n, "icon") then up.icon else local.icon,
                   if Asked(overwrites, n, "tags") then up.tags else local.tags,
                   if Asked(overwrites, n, "vendor") then id else local.vendorId,
                   if Asked(overwrites, n, "name_rule") then up.nameRule else local.nameRule,
                   if !Asked(overwrites, n, "status") then local.status
                   else if up.status != 0 then up.status else if local.status != 0 then local.status else 1,
                   local.syncOfficial)
  {
    hide Chosen, Chooses, Asked;
    ChosenExactly(overwrites, n, Description);
    ChosenExactly(overwrites, n, Icon);
    ChosenExactly(overwrites, n, Tags);
    ChosenExactly(overwrites, n, VendorName);
    ChosenExactly(overwrites, n, NameRule);
    ChosenExactly(overwrites, n, Status);
  }

  /** A record that may be synchronised is after a run as it was, with exactly the fields taken over that some request
      asks for; a vendor by the id of that name, or 0 without a name or when it is refused. */
  lemma RecordAfter(env: Env, s: State, missing: seq<string>, overwrites: seq<Overwrite>, n: string)
    requires Ok(env, s) && n in env.models && n in s.models && s.models[n].syncOfficial != 0
    ensures var t := Sync(env, s, missing, overwrites);
            n in t.models &&
            var before, after, up := s.models[n], t.models[n], env.models[n];
            if n in env.refusedUpdates then after == before
            else
              && after == Record(if Asked(overwrites, n, "description") then up.description else before.description,
                                 if Asked(overwrites, n, "icon") then up.icon else before.icon,
                                 if Asked(overwrites, n, "tags") then up.tags else before.tags,
                                 after.vendorId,
                                 if Asked(overwrites, n, "name_rule") then up.nameRule else before.nameRule,
                                 if !Asked(overwrites, n, "status") then before.status
                                 else if up.status != 0 then up.status
                                 else if before.status != 0 then before.status else 1,
                                 before.syncOfficial)
              && (if !Asked(overwrites, n, "vendor") then after.vendorId == before.vendorId
                  else if up.vendorName == "" || Refused(env, s.dir.vendors, up.vendorName) then after.vendorId == 0
                  else NameOf(t.dir.vendors, after.vendorId) == up.vendorName)
  {
    hide CreateAll, OverwriteAll, Chosen, Chooses, Asked, NameOf, IdOf, Known, FindByName, DirectoryOk, VendorsOk,
         ApplyFields, Refused;
    CreateAllWorks(env, s, missing);
    var r := CreateAll(env, s, missing);
    OverwriteAllWorks(env, r, overwrites, n);
    var t := OverwriteAll(env, r, overwrites);
    GrowsChains(env, s, r, t);
    var up := env.models[n];
    if n !in env.refusedUpdates {
      AskedFields(s.models[n], up, overwrites, n, IdOf(t.dir, up.vendorName));
      if Asked(overwrites, n, "vendor") {
        ChosenExactly(overwrites, n, VendorName);
        Empties(VendorName);
        IdNames(env, t.dir, up.vendorName);
        if up.vendorName == "" || Refused(env, t.dir.vendors, up.vendorName) {
          IdZero(env, t.dir, up.vendorName);
        }
      }
    }
  }

  lemma IdZero(env: Env, d: Directory, name: string)
    requires DirectoryOk(env, d) && Known(d, name) && (name == "" || Refused(env, d.vendors, name))
    ensures IdOf(d, name) == 0
  {
  }

  lemma LowerExample()
    ensures Lower("Name_Rule9") == "name_rule9" && Lower("AZaz") == "azaz"
  {
  }

  // ----- what a run reports -----

  /** The k-th missing name is created: the catalogue has it, there is no such record yet, neither from before nor from
      an earlier place in the list, and the database takes it. */
  predicate Takes(env: Env, s: State, missing: seq<string>, k: nat)
    requires k < |missing|
  {
    var name := missing[k];
    name in env.models && name !in s.models && name !in env.refusedModels && name !in missing[..k]
  }

  function Reported(env: Env, s: State, missing: seq<string>, taken: bool): seq<string> {
    if missing == [] then []
    else
      var last := |missing| - 1;
      Reported(env, s, missing[..last], taken) + if Takes(env, s, missing, last) == taken then [missing[last]] else []
  }

  /** Every missing name is reported once per place, as created or as skipped, in the order of the list. */
  lemma {:induction false} CreationReports(env: Env, s: State, missing: seq<string>)
    requires Ok(env, s)
    ensures var t := CreateAll(env, s, missing);
            && t.created == s.created + Reported(env, s, missing, true)
            && t.skipped == s.skipped + Reported(env, s, missing, false)
            && t.updated == s.updated
  {
    hide Ok, NewRecord, EnsureVendor, FindByName, NameOf;
    if missing == [] {
      assert s.created + [] == s.created && s.skipped + [] == s.skipped;
    } else {
      var front, name := missing[..|missing| - 1], missing[|missing| - 1];
      CreationReports(env, s, front);
      CreateAllWorks(env, s, front);
      var r := CreateAll(env, s, front);
      CreationStep(env, r, name);
      hide CreateOne, CreateAll;
      assert name in r.models <==>
             name in s.models || (name in front && name in env.models && name !in env.refusedModels);
      var made, left := Reported(env, s, front, true), Reported(env, s, front, false);
      assert s.created + (made + [name]) == s.created + made + [name] && s.created + (made + []) == s.created + made;
      assert s.skipped + (left + [name]) == s.skipped + left + [name] && s.skipped + (left + []) == s.skipped + left;
      assert CreateAll(env, s, missing) == CreateOne(env, r, name) by { CreateLast(env, s, missing); }
    }
  }

  lemma CreateLast(env: Env, s: State, missing: seq<string>)
    requires missing != []
    ensures CreateAll(env, s, missing) ==
            CreateOne(env, CreateAll(env, s, missing[..|missing| - 1]), missing[|missing| - 1])
  {
    hide CreateOne;
  }

  /** One missing name: a vendor is looked up only for a model the catalogue has and no record keeps from being
      synchronised. */
  lemma CreationStep(env: Env, s: State, name: string)
    ensures var t := CreateOne(env, s, name);
            var takes := name in env.models && name !in s.models && name !in env.refusedModels;
            && t.created == s.created + (if takes then [name] else [])
            && t.skipped == s.skipped + (if takes then [] else [name])
            && t.updated == s.updated
            && (name !in env.models || (name in s.models && s.models[name].syncOfficial == 0) ==> t.dir == s.dir)
            && (!(name !in env.models || (name in s.models && s.models[name].syncOfficial == 0)) ==>
                  t.dir == EnsureVendor(env, s.dir, env.models[name].vendorName).0)
  {
    hide EnsureVendor, NewRecord;
    assert s.created + [] == s.created && s.skipped + [] == s.skipped;
  }

  predicate AsksForAny(fields: seq<string>) {
    || AsksFor(fields, "description") || AsksFor(fields, "icon") || AsksFor(fields, "tags")
    || AsksFor(fields, "vendor") || AsksFor(fields, "name_rule") || AsksFor(fields, "status")
  }

  function Updates(env: Env, s: State, overwrites: seq<Overwrite>): seq<string> {
    if overwrites == [] then []
    else
      var ow := overwrites[|overwrites| - 1];
      Updates(env, s, overwrites[..|overwrites| - 1]) +
      if ow.name in env.models && ow.name in s.models && s.models[ow.name].syncOfficial != 0
         && ow.name !in env.refusedUpdates && AsksForAny(ow.fields) then [ow.name] else []
  }

  lemma AskedForAny(fields: seq<string>)
    ensures AnyField(fields) <==> AsksForAny(fields)
  {
    hide AsksFor, Chooses;
    AnyOfSix(fields);
    ChoosesByWord(fields, Description);
    ChoosesByWord(fields, Icon);
    ChoosesByWord(fields, Tags);
    ChoosesByWord(fields, VendorName);
    ChoosesByWord(fields, NameRule);
    ChoosesByWord(fields, Status);
  }

  /** The requests that updated a record, in their order. */
  lemma {:induction false} UpdateReports(env: Env, s: State, overwrites: seq<Overwrite>)
    requires Ok(env, s)
    ensures var t := OverwriteAll(env, s, overwrites);
            && t.updated == s.updated + Updates(env, s, overwrites)
            && t.created == s.created && t.skipped == s.skipped
  {
    hide Ok, EnsureVendor, FindByName, NameOf, AnyField, AsksForAny, ApplyFields;
    if overwrites == [] {
      assert s.updated + [] == s.updated;
    } else {
      var front, ow := overwrites[..|overwrites| - 1], overwrites[|overwrites| - 1];
      UpdateReports(env, s, front);
      OverwriteAllWorks(env, s, front, ow.name);
      SyncedStays(env, s, front, ow.name);
      AskedForAny(ow.fields);
      var done := Updates(env, s, front);
      assert s.updated + (done + [ow.name]) == s.updated + done + [ow.name];
      assert s.updated + (done + []) == s.updated + done;
    }
  }

  lemma SyncedStays(env: Env, s: State, overwrites: seq<Overwrite>, n: string)
    requires Ok(env, s)
    ensures Synced(env, OverwriteAll(env, s, overwrites), n) <==> Synced(env, s, n)
  {
    OverwriteAllWorks(env, s, overwrites, n);
    hide OverwriteAll, Ok, Chosen;
  }

  // ----- what the preview shows -----

  /** The preview lists a field exactly when taking it over would change it, up to the space around a text; for the
      vendor, when its name differs from the one in the catalogue. */
  lemma PreviewMeans(env: Env, s: State, n: string, field: Field, id: int)
    requires n in env.models && n in s.models
    ensures var local, up := s.models[n], env.models[n];
            var after := ApplyFields(local, up, [Key(field)], id);
            field in Preview(env, s, n) <==>
            && local.syncOfficial != 0
            && match field
               case Description => TrimSpace(after.description) != TrimSpace(local.description)
               case Icon => TrimSpace(after.icon) != TrimSpace(local.icon)
               case Tags => TrimSpace(after.tags) != TrimSpace(local.tags)
               case VendorName => TrimSpace(NameOf(s.dir.vendors, local.vendorId)) != TrimSpace(up.vendorName)
               case NameRule => after.nameRule != local.nameRule
               case Status => after.status != local.status
  {
    PreviewLists(env, s, n, field);
    assert Chooses([Key(field)], field) by { assert [Key(field)][0] == Key(field); }
    hide TrimSpace, Key, Chooses, NameOf, Preview;
  }

  /** It lists them in this order, each once. */
  lemma PreviewOrder(env: Env, s: State, n: string)
    ensures Preview(env, s, n) ==
            Filter([Description, Icon, Tags, VendorName, NameRule, Status], f => InConflict(env, s, n, f))
  {
    var keep := f => InConflict(env, s, n, f);
    NotesInOrder(keep);
    hide NameOf, Conflict, Filter;
    if !Synced(env, s, n) {
      FilterNone([Description, Icon, Tags, VendorName, NameRule, Status], keep);
    }
  }

  lemma NotesInOrder(keep: Field -> bool)
    ensures var f0 := Note([], keep(Description), Description);
            var f2 := Note(Note(f0, keep(Icon), Icon), keep(Tags), Tags);
            var f4 := Note(Note(f2, keep(VendorName), VendorName), keep(NameRule), NameRule);
            Filter([Description, Icon, Tags, VendorName, NameRule, Status], keep) == Note(f4, keep(Status), Status)
  {
    hide Filter, Note;
    NothingKept(keep);
    OneMore([], Description, keep);
    OneMore([Description], Icon, keep);
    OneMore([Description, Icon], Tags, keep);
    OneMore([Description, Icon, Tags], VendorName, keep);
    OneMore([Description, Icon, Tags, VendorName], NameRule, keep);
    OneMore([Description, Icon, Tags, VendorName, NameRule], Status, keep);
    assert [] + [Description] == [Description] && [Description] + [Icon] == [Description, Icon];
    assert [Description, Icon] + [Tags] == [Description, Icon, Tags];
    assert [Description, Icon, Tags] + [VendorName] == [Description, Icon, Tags, VendorName];
    assert [Description, Icon, Tags, VendorName] + [NameRule] == [Description, Icon, Tags, VendorName, NameRule];
    assert [Description, Icon, Tags, VendorName, NameRule] + [Status] ==
           [Description, Icon, Tags, VendorName, NameRule, Status];
  }

  lemma NothingKept(keep: Field -> bool)
    ensures Filter([], keep) == []
  {
  }

  lemma OneMore(fields: seq<Field>, field: Field, keep: Field -> bool)
    ensures Filter(fields + [field], keep) == Note(Filter(fields, keep), keep(field), field)
  {
    assert (fields + [field])[..|fields|] == fields;
  }

  /** A run only adds vendors, as many as it counts, and no name twice. */
  lemma VendorsOnce(env: Env, s: State, missing: seq<string>, overwrites: seq<Overwrite>)
    requires Ok(env, s)
    ensures var d := Sync(env, s, missing, overwrites).dir;
      && s.dir.vendors <= d.vendors && |d.vendors| - |s.dir.vendors| == d.inserted - s.dir.inserted
      && (forall i :: |s.dir.vendors| <= i < |d.vendors| ==> Described(env, d.vendors[i]))
      && (forall i, j :: 0 <= i < j < |d.vendors| ==> d.vendors[i].name != d.vendors[j].name)
  {
    hide CreateAll, OverwriteAll, NameOf, Refused, EntryOk;
    CreateAllWorks(env, s, missing);
    OverwriteAllWorks(env, CreateAll(env, s, missing), overwrites, "");
    GrowsChains(env, s, CreateAll(env, s, missing), Sync(env, s, missing, overwrites));
  }

  // ----- the run itself -----

  /** One run of the synchronisation, with the tables it works on. */
  class Run {
    const env: Env
    var dir: Directory
    var models: map<string, Record>
    var created: seq<string>
    var updated: seq<string>
    var skipped: seq<string>

    function Current(): State
      reads this
    {
      State(dir, models, created, updated, skipped)
    }

    constructor (env: Env, vendors: seq<Vendor>, nextId: int, models: map<string, Record>)
      ensures this.env == env
      ensures Current() == State(Directory(vendors, nextId, map[], 0), models, [], [], [])
    {
      this.env, this.models := env, models;
      dir, created, updated, skipped := Directory(vendors, nextId, map[], 0), [], [], [];
    }

    method EnsureVendorId(name: string) returns (id: int)
      modifies this`dir
      ensures (dir, id) == EnsureVendor(env, old(dir), name)
    {
      if name == "" {
        return 0;
      }
      if name in dir.cache {
        return dir.cache[name];
      }
      var existing := FindByName(dir.vendors, name);
      if existing.Some? {
        dir := dir.(cache := dir.cache[name := existing.value]);
        return existing.value;
      }
      if name !in env.refusedVendors {
        id := dir.nextId;
        dir := dir.(vendors := dir.vendors + [NewVendor(env, id, name)], nextId := id + 1, inserted := dir.inserted + 1,
                    cache := dir.cache[name := id]);
        return;
      }
      dir := dir.(cache := dir.cache[name := 0]);
      return 0;
    }

    method CreateMissing(missing: seq<string>)
      modifies this
      ensures Current() == CreateAll(env, old(Current()), missing)
    {
      for k := 0 to |missing|
        invariant Current() == CreateAll(env, old(Current()), missing[..k])
      {
        assert missing[..k + 1][..k] == missing[..k];
        var name := missing[k];
        if name !in env.models || (name in models && models[name].syncOfficial == 0) {
          skipped := skipped + [name];
        } else {
          var up := env.models[name];
          var vendorId := EnsureVendorId(up.vendorName);
          if name in models || name in env.refusedModels {
            skipped := skipped + [name];
          } else {
            models := models[name := Record(up.description, up.icon, up.tags, vendorId, up.nameRule,
                                            ChooseStatus(up.status, 1), 0)];
            created := created + [name];
          }
        }
      }
      assert missing[..|missing|] == missing;
    }

    method OverwriteOneModel(ow: Overwrite)
      modifies this
      ensures Current() == OverwriteOne(env, old(Current()), ow)
    {
      hide Chooses, EnsureVendor;
      if ow.name !in env.models || ow.name !in models || models[ow.name].syncOfficial == 0 {
        return;
      }
      var up := env.models[ow.name];
      var newVendorId := EnsureVendorId(up.vendorName);
      var local, needUpdate := models[ow.name], false;
      if Chooses(ow.fields, Description) {
        local, needUpdate := local.(description := up.description), true;
      }
      if Chooses(ow.fields, Icon) {
        local, needUpdate := local.(icon := up.icon), true;
      }
      if Chooses(ow.fields, Tags) {
        local, needUpdate := local.(tags := up.tags), true;
      }
      if Chooses(ow.fields, VendorName) {
        local, needUpdate := local.(vendorId := newVendorId), true;
      }
      if Chooses(ow.fields, NameRule) {
        local, needUpdate := local.(nameRule := up.nameRule), true;
      }
      if Chooses(ow.fields, Status) {
        local, needUpdate := local.(status := ChooseStatus(up.status, local.status)), true;
      }
      AnyOfSix(ow.fields);
      if needUpdate && ow.name !in env.refusedUpdates {
        models := models[ow.name := local];
        updated := updated + [ow.name];
      }
    }

    method OverwriteExisting(overwrites: seq<Overwrite>)
      modifies this
      ensures Current() == OverwriteAll(env, old(Current()), overwrites)
    {
      for k := 0 to |overwrites|
        invariant Current() == OverwriteAll(env, old(Current()), overwrites[..k])
      {
        assert overwrites[..k + 1][..k] == overwrites[..k];
        OverwriteOneModel(overwrites[k]);
      }
      assert overwrites[..|overwrites|] == overwrites;
    }

    method Synchronise(missing: seq<string>, overwrites: seq<Overwrite>)
      modifies this
      ensures Current() == Sync(env, old(Current()), missing, overwrites)
    {
      if |missing| == 0 && |overwrites| == 0 {
        return;
      }
      CreateMissing(missing);
      if |overwrites| > 0 {
        OverwriteExisting(overwrites);
      }
    }

    /** The vendor names of the records that take part, fetched by the set of their ids. */
    method VendorNames(locals: set<string>) returns (names: map<int, string>)
      requires locals <= models.Keys
      requires VendorsOk(dir.vendors, dir.nextId)
      ensures forall m :: m in locals ==>
                NameOf(dir.vendors, models[m].vendorId) ==
                if models[m].vendorId in names then names[models[m].vendorId] else ""
    {
      var ids := set m | m in locals && models[m].vendorId != 0 :: models[m].vendorId;
      names := map[];
      for k := 0 to |dir.vendors|
        invariant forall id :: id in names <==> id in ids && exists i :: 0 <= i < k && dir.vendors[i].id == id
        invariant forall i :: 0 <= i < k && dir.vendors[i].id in names ==>
                    names[dir.vendors[i].id] == dir.vendors[i].name
      {
        if dir.vendors[k].id in ids {
          names := names[dir.vendors[k].id := dir.vendors[k].name];
        }
      }
      forall m | m in locals
        ensures NameOf(dir.vendors, models[m].vendorId) ==
                if models[m].vendorId in names then names[models[m].vendorId] else ""
      {
        NameIs(dir.vendors, dir.nextId, models[m].vendorId);
      }
    }

    method PreviewAll() returns (conflicts: map<string, seq<Field>>)
      requires VendorsOk(dir.vendors, dir.nextId)
      ensures forall m :: m in conflicts <==> Preview(env, Current(), m) != []
      ensures forall m :: m in conflicts ==> conflicts[m] == Preview(env, Current(), m)
    {
      hide NameOf, Conflict, VendorsOk;
      var locals := set m | m in models && m in env.models && models[m].syncOfficial != 0;
      var names := VendorNames(locals);
      conflicts := map[];
      var rest := locals;
      while rest != {}
        invariant rest <= locals
        invariant forall m :: m in conflicts <==> m in locals - rest && Preview(env, Current(), m) != []
        invariant forall m :: m in conflicts ==> conflicts[m] == Preview(env, Current(), m)
      {
        var m :| m in rest;
        rest := rest - {m};
        var local, up := models[m], env.models[m];
        var localVendor := if local.vendorId in names then names[local.vendorId] else "";
        var fields := ListConflicts(local, localVendor, up);
        if |fields| > 0 {
          conflicts := conflicts[m := fields];
        }
      }
    }
  }

  method ListConflicts(local: Record, localVendor: string, up: UpstreamModel) returns (fields: seq<Field>)
    ensures fields == ConflictFields(local, localVendor, up)
  {
    hide TrimSpace;
    fields := [];
    if TrimSpace(local.description) != TrimSpace(up.description) {
      fields := fields + [Description];
    }
    if TrimSpace(local.icon) != TrimSpace(up.icon) {
      fields := fields + [Icon];
    }
    if TrimSpace(local.tags) != TrimSpace(up.tags) {
      fields := fields + [Tags];
    }
    if TrimSpace(localVendor) != TrimSpace(up.vendorName) {
      fields := fields + [VendorName];
    }
    if local.nameRule != up.nameRule {
      fields := fields + [NameRule];
    }
    if local.status != ChooseStatus(up.status, local.status) {
      fields := fields + [Status];
    }
  }

  lemma AnyOfSix(fields: seq<string>)
    ensures AnyField(fields) <==>
      || Chooses(fields, Description) || Chooses(fields, Icon) || Chooses(fields, Tags)
      || Chooses(fields, VendorName) || Chooses(fields, NameRule) || Chooses(fields, Status)
  {
    hide Chooses;
    if f: Field :| Chooses(fields, f) {
      match f {
        case Description =>
        case Icon =>
        case Tags =>
        case VendorName =>
        case NameRule =>
        case Status =>
      }
    }
  }

  lemma NameIs(vendors: seq<Vendor>, nextId: int, id: int)
    requires VendorsOk(vendors, nextId)
    ensures forall i :: 0 <= i < |vendors| && vendors[i].id == id ==> NameOf(vendors, id) == vendors[i].name
    ensures (forall i :: 0 <= i < |vendors| ==> vendors[i].id != id) ==> NameOf(vendors, id) == ""
  {
    forall i | 0 <= i < |vendors| ensures NameOf(vendors, vendors[i].id) == vendors[i].name {
      NameOfAt(vendors, nextId, i);
    }
    if forall i :: 0 <= i < |vendors| ==> vendors[i].id != id {
      Unnamed(vendors, id);
    }
  }

  lemma {:induction false} Unnamed(vendors: seq<Vendor>, id: int)
    requires forall i :: 0 <= i < |vendors| ==> vendors[i].id != id
    ensures NameOf(vendors, id) == ""
  {
    if vendors != [] {
      Unnamed(vendors[1..], id);
    }
  }
}
