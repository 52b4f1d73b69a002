/** Saving and restarting: what a new daemon reads from the directory tree that an old one left. */
module DeploymentRuns {
  import opened Wrappers
  import opened Identifiers
  import opened Entities
  import opened DirectoryNames
  import opened Deployments

  // ----- reading a whole tree -----

  /** A tree the program left: made names only, and readable information where there is any. */
  ghost predicate SaneDisk(disk: Disk) {
    forall n :: n in disk ==>
      && (forall name :: name in disk[n].dirs ==> MadeName(name))
      && (disk[n].info.Some? ==> InfoFrom(disk[n].info.value).Some?)
  }

  ghost predicate Informed(disk: Disk, n: string) { n in disk && disk[n].info.Some? }

  ghost function InfoOn(disk: Disk, n: string): DeploymentInfo
    requires SaneDisk(disk) && Informed(disk, n)
  {
    InfoFrom(disk[n].info.value).value
  }

  ghost predicate OneNamePerId(disk: Disk)
    requires SaneDisk(disk)
  {
    forall m, n :: Informed(disk, m) && Informed(disk, n) && InfoOn(disk, m).id == InfoOn(disk, n).id
      ==> m == n
  }

  /** The application read for a directory. */
  ghost predicate ReadAs(apps: AppMap, disk: Disk, n: string)
    requires SaneDisk(disk) && Informed(disk, n)
  {
    var info := InfoOn(disk, n);
    && info.id in apps && apps[info.id].info == info
    && DirNames(apps[info.id].deployments) == disk[n].dirs
  }

  /** A walk of part of the root: `names` says which application's directory an item is. */
  ghost predicate WalksPart(root: seq<RootItem>, names: seq<string>, disk: Disk) {
    && |names| == |root|
    && (forall i :: 0 <= i < |root| && root[i].Application? ==>
          names[i] in disk && Walks(root[i].items, disk[names[i]]))
    && (forall i, j :: 0 <= i < j < |root| && root[i].Application? && root[j].Application? ==>
          names[i] != names[j])
  }

  ghost predicate Met(root: seq<RootItem>, names: seq<string>, n: string)
    requires |names| == |root|
  {
    exists i :: 0 <= i < |root| && root[i].Application? && names[i] == n
  }

  /** A walk of the root meets every directory once, in an order nobody controls. */
  ghost predicate WalksRoot(root: seq<RootItem>, names: seq<string>, disk: Disk) {
    WalksPart(root, names, disk) && forall n :: n in disk ==> Met(root, names, n)
  }

  lemma MetSnoc(root: seq<RootItem>, names: seq<string>, n: string)
    requires |names| == |root| > 0
    ensures var k := |root| - 1;
            Met(root, names, n) <==>
            Met(root[..k], names[..k], n) || (root[k].Application? && names[k] == n)
  {
    var k := |root| - 1;
    if Met(root[..k], names[..k], n) {
      var i :| 0 <= i < k && root[..k][i].Application? && names[..k][i] == n;
      assert root[i].Application? && names[i] == n;
    }
    if Met(root, names, n) {
      var i :| 0 <= i < |root| && root[i].Application? && names[i] == n;
      if i < k {
        assert root[..k][i].Application? && names[..k][i] == n;
      }
    }
  }

  lemma MetInDisk(root: seq<RootItem>, names: seq<string>, disk: Disk, n: string)
    requires WalksPart(root, names, disk) && Met(root, names, n)
    ensures n in disk
  {
  }

  /** Reading fails exactly when some directory met has no information. */
  lemma {:induction false} RootFails(root: seq<RootItem>, names: seq<string>, disk: Disk)
    requires WalksPart(root, names, disk) && SaneDisk(disk)
    ensures AppsFrom(root).Failure? <==> exists n :: Met(root, names, n) && disk[n].info.None?
  {
    if root != [] {
      var k := |root| - 1;
      RootFails(root[..k], names[..k], disk);
      forall n ensures Met(root, names, n) <==>
        Met(root[..k], names[..k], n) || (root[k].Application? && names[k] == n)
      {
        MetSnoc(root, names, n);
      }
      if root[k].Application? {
        AppReads(root[k].items, disk[names[k]]);
        assert Met(root, names, names[k]);
      }
    }
  }

  /** When all directories met have information, and no two have the same id, each is read under its id,
      and nothing else is. */
  lemma {:induction false} RootReads(root: seq<RootItem>, names: seq<string>, disk: Disk)
    requires WalksPart(root, names, disk) && SaneDisk(disk) && OneNamePerId(disk)
    requires forall n :: Met(root, names, n) ==> Informed(disk, n)
    ensures AppsFrom(root).Success?
    ensures forall n :: Met(root, names, n) ==> ReadAs(AppsFrom(root).value, disk, n)
    ensures forall id :: id in AppsFrom(root).value ==>
      exists n :: Met(root, names, n) && InfoOn(disk, n).id == id
  {
    if root != [] {
      var k := |root| - 1;
      var front, fronts := root[..k], names[..k];
      forall n ensures Met(root, names, n) <==>
        Met(front, fronts, n) || (root[k].Application? && names[k] == n)
      {
        MetSnoc(root, names, n);
      }
      RootReads(front, fronts, disk);
      if root[k].Application? {
        AppReads(root[k].items, disk[names[k]]);
        assert Met(root, names, names[k]);
        LastRead(root, names, disk);
      }
    }
  }

  /** The last application met joins those read before it. */
  lemma LastRead(root: seq<RootItem>, names: seq<string>, disk: Disk)
    requires WalksPart(root, names, disk) && SaneDisk(disk) && OneNamePerId(disk)
    requires root != [] && root[|root| - 1].Application? && Informed(disk, names[|root| - 1])
    requires AppsFrom(root[..|root| - 1]).Success?
    ensures AppsFrom(root).Success?
    ensures var n, before, now := names[|root| - 1], AppsFrom(root[..|root| - 1]).value, AppsFrom(root).value;
            && ReadAs(now, disk, n)
            && now.Keys == before.Keys + {InfoOn(disk, n).id}
            && forall m :: m != n && Informed(disk, m) && ReadAs(before, disk, m) ==> ReadAs(now, disk, m)
  {
    AppReads(root[|root| - 1].items, disk[names[|root| - 1]]);
  }

  // ----- saving -----

  datatype Saving = Saving(info: DeploymentInfo, saved: SavedDeployment, written: bool)
  /** `instances` are the ids of the instances started here; `starting` are those whose application has
      been found in the index and that are about to be noted. */
  datatype Store = Store(apps: AppMap, disk: Disk, saving: map<nat, Saving>,
                         starting: multiset<Uuid>, instances: seq<Uuid>)

  datatype Event =
    | MakeDirectory(ticket: nat, info: DeploymentInfo, saved: SavedDeployment)
    | WriteInfo(ticket: nat)
    | Insert(ticket: nat)
    | Abandon(ticket: nat)
    | FindApp(id: Uuid)
    | NoteInstance(id: Uuid)

  const EMPTY := Store(map[], map[], map[], multiset{}, [])

  function DirOf(disk: Disk, n: string): AppDir { if n in disk then disk[n] else AppDir(None, {}) }

  /** `Inner::insert`: an entry that exists keeps its information. */
  function Inserted(apps: AppMap, info: DeploymentInfo, saved: SavedDeployment): AppMap {
    if info.id in apps then
      apps[info.id := apps[info.id].(deployments := apps[info.id].deployments + [saved])]
    else apps[info.id := SavedApplication(info, [saved])]
  }

  predicate Enabled(s: Store, e: Event) {
    match e
    case MakeDirectory(t, _, _) => t !in s.saving
    case WriteInfo(t) => t in s.saving && !s.saving[t].written
    case Insert(t) => t in s.saving && s.saving[t].written
    case Abandon(t) => t in s.saving && !s.saving[t].written
    case FindApp(id) => id in s.apps
    case NoteInstance(id) => id in s.starting
  }

  function Apply(s: Store, e: Event): Store
    requires Enabled(s, e)
  {
    match e
    case MakeDirectory(t, info, saved) =>
      var dir := DirOf(s.disk, info.name);
      s.(disk := s.disk[info.name := dir.(dirs := dir.dirs + {DirName(saved)})],
         saving := s.saving[t := Saving(info, saved, false)])
    case WriteInfo(t) =>
      var v := s.saving[t];
      s.(disk := s.disk[v.info.name := DirOf(s.disk, v.info.name).(info := Some(DeploymentToWire(v.info)))],
         saving := s.saving[t := v.(written := true)])
    case Insert(t) =>
      s.(apps := Inserted(s.apps, s.saving[t].info, s.saving[t].saved), saving := s.saving - {t})
    case Abandon(t) => s.(saving := s.saving - {t})
    case FindApp(id) => s.(starting := s.starting + multiset{id})
    case NoteInstance(id) =>
      s.(starting := s.starting - multiset{id}, instances := s.instances + [id])
  }

  predicate IsRun(es: seq<Event>)
    decreases |es|, 0
  {
    es == [] || (IsRun(es[..|es| - 1]) && Enabled(After(es[..|es| - 1]), es[|es| - 1]))
  }

  function After(es: seq<Event>): Store
    requires IsRun(es)
    decreases |es|, 1
  {
    if es == [] then EMPTY else Apply(After(es[..|es| - 1]), es[|es| - 1])
  }

  /** Ids are drawn anew for each deployment, so an id always stands for the same information. */
  type Catalog = map<Uuid, DeploymentInfo>

  ghost predicate Listed(info: DeploymentInfo, catalog: Catalog) {
    info.id in catalog && catalog[info.id] == info
  }

  /** Saves are of deployments in the catalog. */
  ghost predicate Proper(e: Event, catalog: Catalog) {
    e.MakeDirectory? ==> IsSaved(e.saved) && Listed(e.info, catalog)
  }

  ghost predicate ProperRun(es: seq<Event>, catalog: Catalog) {
    IsRun(es) &&
    (es == [] || (ProperRun(es[..|es| - 1], catalog) && Proper(es[|es| - 1], catalog)))
  }

  /** No save is dated before 1970. */
  predicate Timely(es: seq<Event>) {
    es == [] ||
    (Timely(es[..|es| - 1]) && (es[|es| - 1].MakeDirectory? ==> es[|es| - 1].saved.seconds >= 0))
  }

  predicate NoneAbandoned(es: seq<Event>) {
    es == [] || (NoneAbandoned(es[..|es| - 1]) && !es[|es| - 1].Abandon?)
  }

  // ----- what every run keeps, one ticket, application or directory at a time -----

  lemma StepDisk(s: Store, e: Event, n: string)
    requires Enabled(s, e) && n in s.disk
    ensures var now := Apply(s, e).disk;
            n in now && s.disk[n].dirs <= now[n].dirs && (Informed(s.disk, n) ==> Informed(now, n))
  {
  }

  /** The save under way on a ticket, by the events. */
  function SavingNow(es: seq<Event>, t: nat): Option<Saving> {
    if es == [] then None
    else
      var before, e := SavingNow(es[..|es| - 1], t), es[|es| - 1];
      match e
      case MakeDirectory(q, info, saved) => if q == t then Some(Saving(info, saved, false)) else before
      case WriteInfo(q) => if q == t && before.Some? then Some(before.value.(written := true)) else before
      case Insert(q) => if q == t then None else before
      case Abandon(q) => if q == t then None else before
      case _ => before
  }

  lemma StepSaving(s: Store, e: Event, t: nat)
    requires Enabled(s, e)
    ensures var now := Apply(s, e).saving;
            match e
            case MakeDirectory(q, info, saved) =>
              if q == t then t in now && now[t] == Saving(info, saved, false)
              else (t in now <==> t in s.saving) && (t in now ==> now[t] == s.saving[t])
            case WriteInfo(q) =>
              && (t in now <==> t in s.saving)
              && (t in now ==> now[t] == if q == t then s.saving[t].(written := true) else s.saving[t])
            case Insert(q) => (t in now <==> t in s.saving && q != t) && (t in now ==> now[t] == s.saving[t])
            case Abandon(q) => (t in now <==> t in s.saving && q != t) && (t in now ==> now[t] == s.saving[t])
            case _ => (t in now <==> t in s.saving) && (t in now ==> now[t] == s.saving[t])
  {
  }

  /** A save is under way from the making of its directory until it enters the index or is abandoned. */
  lemma {:induction false} SavingsAreEvents(es: seq<Event>, t: nat)
    requires IsRun(es)
    ensures t in After(es).saving <==> SavingNow(es, t).Some?
    ensures t in After(es).saving ==> SavingNow(es, t) == Some(After(es).saving[t])
  {
    if es != [] {
      SavingsAreEvents(es[..|es| - 1], t);
      StepSaving(After(es[..|es| - 1]), es[|es| - 1], t);
    }
  }

  ghost predicate SavingInv(v: Saving, disk: Disk, catalog: Catalog) {
    && Listed(v.info, catalog) && IsSaved(v.saved)
    && v.info.name in disk && DirName(v.saved) in disk[v.info.name].dirs
    && (v.written ==> Informed(disk, v.info.name))
  }

  lemma {:induction false} SavingKept(es: seq<Event>, catalog: Catalog, t: nat)
    requires ProperRun(es, catalog) && t in After(es).saving
    ensures SavingInv(After(es).saving[t], After(es).disk, catalog)
  {
    var front, e := es[..|es| - 1], es[|es| - 1];
    var s := After(front);
    if t in s.saving {
      SavingKept(front, catalog, t);
      StepDisk(s, e, s.saving[t].info.name);
    }
  }

  ghost predicate AppInv(app: SavedApplication, disk: Disk, catalog: Catalog) {
    && Listed(app.info, catalog) && Informed(disk, app.info.name)
    && DirNames(app.deployments) <= disk[app.info.name].dirs
  }

  lemma InsertedDirs(apps: AppMap, info: DeploymentInfo, saved: SavedDeployment)
    ensures var now := Inserted(apps, info, saved)[info.id];
            var was := if info.id in apps then DirNames(apps[info.id].deployments) else {};
            DirNames(now.deployments) == was + {DirName(saved)}
  {
    if info.id in apps {
      DirNamesSnoc(apps[info.id].deployments, saved);
    } else {
      DirNamesSnoc([], saved);
      assert [] + [saved] == [saved];
    }
  }

  lemma {:induction false} AppKept(es: seq<Event>, catalog: Catalog, k: Uuid)
    requires ProperRun(es, catalog) && k in After(es).apps
    ensures AppInv(After(es).apps[k], After(es).disk, catalog) && After(es).apps[k].info.id == k
  {
    var front, e := es[..|es| - 1], es[|es| - 1];
    var s := After(front);
    if k in s.apps {
      AppKept(front, catalog, k);
      StepDisk(s, e, s.apps[k].info.name);
    }
    if e.Insert? && s.saving[e.ticket].info.id == k {
      SavingKept(front, catalog, e.ticket);
      InsertedDirs(s.apps, s.saving[e.ticket].info, s.saving[e.ticket].saved);
    }
  }

  lemma {:induction false} NameKept(es: seq<Event>, catalog: Catalog, n: string, d: string)
    requires ProperRun(es, catalog) && Timely(es) && n in After(es).disk && d in After(es).disk[n].dirs
    ensures MadeName(d)
  {
    var front, e := es[..|es| - 1], es[|es| - 1];
    if n in After(front).disk && d in After(front).disk[n].dirs {
      NameKept(front, catalog, n, d);
    }
  }

  /** Whose information a directory holds: an application in the index, or one about to enter it. */
  ghost predicate InIndex(k: Uuid, s: Store) {
    k in s.apps || exists t :: t in s.saving && s.saving[t].info.id == k && s.saving[t].written
  }

  lemma StepInIndex(s: Store, e: Event, k: Uuid)
    requires Enabled(s, e) && InIndex(k, s)
    ensures InIndex(k, Apply(s, e))
  {
    var now := Apply(s, e);
    if k !in s.apps {
      var t :| t in s.saving && s.saving[t].info.id == k && s.saving[t].written;
      if e != Insert(t) {
        assert t in now.saving && now.saving[t] == s.saving[t];
      }
    }
  }

  lemma {:induction false} OwnerKept(es: seq<Event>, catalog: Catalog, n: string) returns (k: Uuid)
    requires ProperRun(es, catalog) && Informed(After(es).disk, n)
    ensures k in catalog && catalog[k].id == k && catalog[k].name == n && InIndex(k, After(es))
    ensures After(es).disk[n].info == Some(DeploymentToWire(catalog[k]))
  {
    var front, e := es[..|es| - 1], es[|es| - 1];
    var s := After(front);
    if e.WriteInfo? && s.saving[e.ticket].info.name == n {
      SavingKept(front, catalog, e.ticket);
      k := s.saving[e.ticket].info.id;
      assert e.ticket in After(es).saving && After(es).saving[e.ticket].written;
    } else {
      k := OwnerKept(front, catalog, n);
      StepInIndex(s, e, k);
    }
  }

  /** The information on disk reads as a catalog entry of the directory's name. */
  lemma InfoKept(es: seq<Event>, catalog: Catalog, n: string)
    requires ProperRun(es, catalog) && Informed(After(es).disk, n)
    ensures var info := InfoFrom(After(es).disk[n].info.value);
            info.Some? && info.value.name == n && Listed(info.value, catalog)
            && InIndex(info.value.id, After(es))
  {
    var k := OwnerKept(es, catalog, n);
    ParseText(catalog[k].id);
  }

  lemma DiskKept(es: seq<Event>, catalog: Catalog)
    requires ProperRun(es, catalog) && Timely(es)
    ensures SaneDisk(After(es).disk) && OneNamePerId(After(es).disk)
    ensures forall n :: Informed(After(es).disk, n) ==>
      var info := InfoOn(After(es).disk, n);
      info.name == n && Listed(info, catalog) && InIndex(info.id, After(es))
  {
    var disk := After(es).disk;
    forall n | Informed(disk, n)
      ensures var info := InfoFrom(disk[n].info.value);
              info.Some? && info.value.name == n && Listed(info.value, catalog)
              && InIndex(info.value.id, After(es))
    {
      InfoKept(es, catalog, n);
    }
    forall n, d | n in disk && d in disk[n].dirs ensures MadeName(d) {
      NameKept(es, catalog, n, d);
    }
  }

  ghost predicate AppKnown(s: Store, id: Uuid) {
    id in s.instances || id in s.starting ==> id in s.apps
  }

  lemma StepKnown(s: Store, e: Event, id: Uuid)
    requires Enabled(s, e) && AppKnown(s, id)
    ensures AppKnown(Apply(s, e), id)
  {
  }

  /** An instance is noted only for an application in the index, and the index never loses one. */
  lemma {:induction false} InstancesKnown(es: seq<Event>, id: Uuid)
    requires IsRun(es)
    ensures id in After(es).instances ==> id in After(es).apps
    ensures AppKnown(After(es), id)
  {
    if es != [] {
      InstancesKnown(es[..|es| - 1], id);
      StepKnown(After(es[..|es| - 1]), es[|es| - 1], id);
    }
  }

  /** The instances noted by the events, in order. */
  function Noted(es: seq<Event>): seq<Uuid> {
    if es == [] then []
    else Noted(es[..|es| - 1]) + if es[|es| - 1].NoteInstance? then [es[|es| - 1].id] else []
  }

  lemma StepNoted(s: Store, e: Event)
    requires Enabled(s, e)
    ensures Apply(s, e).instances == s.instances + if e.NoteInstance? then [e.id] else []
  {
  }

  /** How often an id was found, and noted. */
  function Found(es: seq<Event>, id: Uuid): nat {
    if es == [] then 0 else Found(es[..|es| - 1], id) + if es[|es| - 1] == FindApp(id) then 1 else 0
  }

  function TimesNoted(es: seq<Event>, id: Uuid): nat {
    if es == [] then 0 else TimesNoted(es[..|es| - 1], id) + if es[|es| - 1] == NoteInstance(id) then 1 else 0
  }

  lemma StepStarting(s: Store, e: Event, id: Uuid)
    requires Enabled(s, e)
    ensures Apply(s, e).starting[id] == s.starting[id]
            + (if e == FindApp(id) then 1 else 0) - (if e == NoteInstance(id) then 1 else 0)
  {
  }

  /** An instance is noted once for each time its application was found, at most. */
  lemma {:induction false} FoundThenNoted(es: seq<Event>, id: Uuid)
    requires IsRun(es)
    ensures After(es).starting[id] + TimesNoted(es, id) == Found(es, id)
  {
    if es != [] {
      FoundThenNoted(es[..|es| - 1], id);
      StepStarting(After(es[..|es| - 1]), es[|es| - 1], id);
    }
  }

  /** Every instance that is noted stays so, in order, and nothing else is. */
  lemma {:induction false} InstancesAreNotes(es: seq<Event>)
    requires IsRun(es)
    ensures After(es).instances == Noted(es)
  {
    if es != [] {
      InstancesAreNotes(es[..|es| - 1]);
      StepNoted(After(es[..|es| - 1]), es[|es| - 1]);
    }
  }

  function Completed(s: Store, e: Event, k: Uuid): seq<SavedDeployment>
    requires Enabled(s, e)
  {
    if e.Insert? && s.saving[e.ticket].info.id == k then [s.saving[e.ticket].saved] else []
  }

  /** The saves of an application that were completed, in order. */
  function AllCompleted(es: seq<Event>, k: Uuid): seq<SavedDeployment>
    requires IsRun(es)
  {
    if es == [] then []
    else AllCompleted(es[..|es| - 1], k) + Completed(After(es[..|es| - 1]), es[|es| - 1], k)
  }

  function DeploymentsOf(apps: AppMap, k: Uuid): seq<SavedDeployment> {
    if k in apps then apps[k].deployments else []
  }

  lemma StepDeployments(s: Store, e: Event, k: Uuid)
    requires Enabled(s, e)
    ensures var now := Apply(s, e).apps;
            && DeploymentsOf(now, k) == DeploymentsOf(s.apps, k) + Completed(s, e, k)
            && (k in now <==> k in s.apps || Completed(s, e, k) != [])
  {
  }

  /** An application's deployments are its completed saves in order, so the last one is the latest, and
      an application is in the index exactly when a save of it completed. */
  lemma {:induction false} DeploymentsInOrder(es: seq<Event>, k: Uuid)
    requires IsRun(es)
    ensures DeploymentsOf(After(es).apps, k) == AllCompleted(es, k)
    ensures k in After(es).apps <==> AllCompleted(es, k) != []
  {
    if es != [] {
      DeploymentsInOrder(es[..|es| - 1], k);
      StepDeployments(After(es[..|es| - 1]), es[|es| - 1], k);
    }
  }

  // ----- restarting -----

  /** A directory of the name was made. */
  predicate Made(es: seq<Event>, n: string) {
    es != [] &&
    (Made(es[..|es| - 1], n) || (es[|es| - 1].MakeDirectory? && es[|es| - 1].info.name == n))
  }

  /** Information for the name was written. */
  predicate Written(es: seq<Event>, n: string)
    requires IsRun(es)
  {
    es != [] &&
    (Written(es[..|es| - 1], n) ||
     (es[|es| - 1].WriteInfo? && After(es[..|es| - 1]).saving[es[|es| - 1].ticket].info.name == n))
  }

  lemma {:induction false} DiskByEvents(es: seq<Event>, catalog: Catalog, n: string)
    requires ProperRun(es, catalog)
    ensures n in After(es).disk <==> Made(es, n)
    ensures Informed(After(es).disk, n) <==> Written(es, n)
  {
    if es != [] {
      var front, last := es[..|es| - 1], es[|es| - 1];
      DiskByEvents(front, catalog, n);
      if last.WriteInfo? {
        SavingKept(front, catalog, last.ticket);
      }
    }
  }

  /** A directory whose name does not read. */
  ghost predicate BadDir(disk: Disk, n: string, d: string) {
    n in disk && d in disk[n].dirs && ReadName(d).None?
  }

  /** A save dated before 1970 leaves a directory whose name does not read. */
  lemma {:induction false} UntimelyLeaves(es: seq<Event>, catalog: Catalog) returns (n: string, d: string)
    requires ProperRun(es, catalog) && !Timely(es)
    ensures BadDir(After(es).disk, n, d)
  {
    var front, last := es[..|es| - 1], es[|es| - 1];
    if !Timely(front) {
      n, d := UntimelyLeaves(front, catalog);
      StepDisk(After(front), last, n);
    } else {
      n, d := last.info.name, DirName(last.saved);
      NameRoundTripIff(last.saved);
    }
  }

  lemma BadItemFails(items: seq<Item>, i: nat)
    requires i < |items| && items[i].Directory? && ReadName(items[i].name).None?
    ensures AppFrom(items).Failure?
  {
    assert items[..i + 1][..i] == items[..i];
    FailureStays(items, i + 1);
  }

  lemma BadAppFails(root: seq<RootItem>, i: nat)
    requires i < |root| && root[i].Application? && AppFrom(root[i].items).Failure?
    ensures AppsFrom(root).Failure?
  {
    assert root[..i + 1][..i] == root[..i];
    RootFailureStays(root, i + 1);
  }

  /** A directory whose name does not read makes the walk fail wherever it is met. */
  lemma BadDirFails(root: seq<RootItem>, names: seq<string>, disk: Disk, n: string, d: string)
    requires WalksRoot(root, names, disk) && BadDir(disk, n, d)
    ensures AppsFrom(root).Failure?
  {
    assert Met(root, names, n);
    var i :| 0 <= i < |root| && root[i].Application? && names[i] == n;
    assert d in NamesIn(root[i].items);
    var j :| 0 <= j < |root[i].items| && root[i].items[j].Directory? && root[i].items[j].name == d;
    BadItemFails(root[i].items, j);
    BadAppFails(root, i);
  }

  /** When a restart fails: at whatever point the old daemon stopped, reading the tree fails if and only if
      some save was dated before 1970, or some application's directory was made and no save of that name
      ever got as far as its information, as when the first archive of the name was bad. */
  lemma RestartFailsIff(es: seq<Event>, catalog: Catalog, root: seq<RootItem>, names: seq<string>)
    requires ProperRun(es, catalog) && WalksRoot(root, names, After(es).disk)
    ensures AppsFrom(root).Failure? <==> !Timely(es) || exists n :: Made(es, n) && !Written(es, n)
  {
    if Timely(es) {
      TimelyRestartFailsIff(es, catalog, root, names);
    } else {
      var n, d := UntimelyLeaves(es, catalog);
      BadDirFails(root, names, After(es).disk, n, d);
    }
  }

  lemma TimelyRestartFailsIff(es: seq<Event>, catalog: Catalog, root: seq<RootItem>, names: seq<string>)
    requires ProperRun(es, catalog) && Timely(es) && WalksRoot(root, names, After(es).disk)
    ensures AppsFrom(root).Failure? <==> exists n :: Made(es, n) && !Written(es, n)
  {
    var disk := After(es).disk;
    DiskKept(es, catalog);
    RootFails(root, names, disk);
    if AppsFrom(root).Failure? {
      var n :| Met(root, names, n) && disk[n].info.None?;
      MetInDisk(root, names, disk, n);
      DiskByEvents(es, catalog, n);
      assert Made(es, n) && !Written(es, n);
    }
    if n :| Made(es, n) && !Written(es, n) {
      DiskByEvents(es, catalog, n);
      assert n in disk && disk[n].info.None?;
      assert Met(root, names, n);
    }
  }

  // ----- agreement -----

  ghost predicate InApp(s: Store, n: string, d: string, k: Uuid) {
    k in s.apps && s.apps[k].info.name == n && d in DirNames(s.apps[k].deployments)
  }

  ghost predicate InSave(s: Store, n: string, d: string, t: nat) {
    t in s.saving && s.saving[t].info.name == n && DirName(s.saving[t].saved) == d
  }

  /** Every directory belongs to a deployment in the index or to one being saved. */
  ghost predicate Accounted(s: Store, n: string, d: string) {
    (exists k :: InApp(s, n, d, k)) || (exists t :: InSave(s, n, d, t))
  }

  lemma InAppLater(s: Store, e: Event, n: string, d: string, k: Uuid)
    requires Enabled(s, e) && InApp(s, n, d, k)
    ensures InApp(Apply(s, e), n, d, k)
  {
    if e.Insert? {
      InsertedDirs(s.apps, s.saving[e.ticket].info, s.saving[e.ticket].saved);
    }
  }

  lemma InSaveLater(s: Store, e: Event, n: string, d: string, t: nat)
    requires Enabled(s, e) && InSave(s, n, d, t) && !e.Abandon? && e != Insert(t)
    ensures InSave(Apply(s, e), n, d, t)
  {
  }

  /** A finished save is found in the index, under the name it was made for. */
  lemma SaveEnters(es: seq<Event>, catalog: Catalog, t: nat, n: string, d: string)
    requires ProperRun(es, catalog) && Enabled(After(es), Insert(t)) && InSave(After(es), n, d, t)
    ensures InApp(Apply(After(es), Insert(t)), n, d, After(es).saving[t].info.id)
  {
    var s := After(es);
    var v := s.saving[t];
    SavingKept(es, catalog, t);
    InsertedDirs(s.apps, v.info, v.saved);
    if v.info.id in s.apps {
      AppKept(es, catalog, v.info.id);
    }
  }

  lemma {:induction false} RunAccounted(es: seq<Event>, catalog: Catalog, n: string, d: string)
    requires ProperRun(es, catalog) && NoneAbandoned(es)
    requires n in After(es).disk && d in After(es).disk[n].dirs
    ensures Accounted(After(es), n, d)
  {
    var front, e := es[..|es| - 1], es[|es| - 1];
    var s := After(front);
    if n in s.disk && d in s.disk[n].dirs {
      RunAccounted(front, catalog, n, d);
      if k :| InApp(s, n, d, k) {
        InAppLater(s, e, n, d, k);
      } else {
        var t :| InSave(s, n, d, t);
        if e == Insert(t) {
          SaveEnters(front, catalog, t, n, d);
        } else {
          InSaveLater(s, e, n, d, t);
        }
      }
    } else {
      assert InSave(After(es), n, d, e.ticket);
    }
  }

  lemma {:induction false} NonEmptyDir(es: seq<Event>, catalog: Catalog, n: string) returns (d: string)
    requires ProperRun(es, catalog) && n in After(es).disk
    ensures d in After(es).disk[n].dirs
  {
    var front, e := es[..|es| - 1], es[|es| - 1];
    if n in After(front).disk {
      d := NonEmptyDir(front, catalog, n);
      StepDisk(After(front), e, n);
    } else {
      if e.WriteInfo? {
        SavingKept(front, catalog, e.ticket);
      }
      d := DirName(e.saved);
    }
  }

  /** The same ids with the same information and the same directories. */
  ghost predicate Agree(a: AppMap, b: AppMap) {
    a.Keys == b.Keys
    && forall k :: k in a ==>
         a[k].info == b[k].info && DirNames(a[k].deployments) == DirNames(b[k].deployments)
  }

  ghost predicate NamesUnique(apps: AppMap) {
    forall j, k :: j in apps && k in apps && apps[j].info.name == apps[k].info.name ==> j == k
  }

  /** After completed saves only, every directory has its information. */
  lemma EveryDirInformed(es: seq<Event>, catalog: Catalog, n: string)
    requires ProperRun(es, catalog) && NoneAbandoned(es) && After(es).saving == map[]
    requires n in After(es).disk
    ensures Informed(After(es).disk, n)
  {
    var d := NonEmptyDir(es, catalog, n);
    RunAccounted(es, catalog, n, d);
    var k :| InApp(After(es), n, d, k);
    AppKept(es, catalog, k);
  }

  /** With unique names, a directory's dirs are those of the one application of the name. */
  lemma SameDirs(es: seq<Event>, catalog: Catalog, k: Uuid)
    requires ProperRun(es, catalog) && NoneAbandoned(es) && After(es).saving == map[]
    requires k in After(es).apps && NamesUnique(After(es).apps)
    ensures var app := After(es).apps[k];
            && Informed(After(es).disk, app.info.name)
            && DirNames(app.deployments) == After(es).disk[app.info.name].dirs
            && InfoFrom(After(es).disk[app.info.name].info.value) == Some(app.info)
  {
    AppKept(es, catalog, k);
    var n := After(es).apps[k].info.name;
    forall d | d in After(es).disk[n].dirs ensures d in DirNames(After(es).apps[k].deployments) {
      RunAccounted(es, catalog, n, d);
      var j :| InApp(After(es), n, d, j);
      assert j == k;
    }
    InfoKept(es, catalog, n);
    var owner := InfoFrom(After(es).disk[n].info.value).value;
    AppKept(es, catalog, owner.id);
    assert owner.id == k;
  }

  /** What a walk of the whole tree reads after completed saves. */
  lemma RestartReads(es: seq<Event>, catalog: Catalog, root: seq<RootItem>, names: seq<string>)
    requires ProperRun(es, catalog) && Timely(es) && NoneAbandoned(es) && After(es).saving == map[]
    requires WalksRoot(root, names, After(es).disk)
    ensures SaneDisk(After(es).disk) && AppsFrom(root).Success?
    ensures forall n :: Informed(After(es).disk, n) ==> ReadAs(AppsFrom(root).value, After(es).disk, n)
    ensures forall id :: id in AppsFrom(root).value ==>
      id in After(es).apps && id in catalog && Informed(After(es).disk, catalog[id].name)
      && InfoOn(After(es).disk, catalog[id].name).id == id
  {
    DiskKept(es, catalog);
    forall n | Met(root, names, n) ensures Informed(After(es).disk, n) {
      MetInDisk(root, names, After(es).disk, n);
      EveryDirInformed(es, catalog, n);
    }
    RootReads(root, names, After(es).disk);
  }

  /** Two deployments of one name cannot both be read from the one file. */
  lemma SharedNameLost(es: seq<Event>, catalog: Catalog, read: AppMap, j: Uuid, k: Uuid)
    requires ProperRun(es, catalog) && SaneDisk(After(es).disk)
    requires forall id :: id in read ==>
      id in catalog && Informed(After(es).disk, catalog[id].name)
      && InfoOn(After(es).disk, catalog[id].name).id == id
    requires j in After(es).apps && k in After(es).apps && j != k
    requires After(es).apps[j].info.name == After(es).apps[k].info.name
    ensures !(j in read && k in read)
  {
    AppKept(es, catalog, j);
    AppKept(es, catalog, k);
  }

  lemma UniqueNamesAgree(es: seq<Event>, catalog: Catalog, read: AppMap)
    requires ProperRun(es, catalog) && NoneAbandoned(es) && After(es).saving == map[]
    requires SaneDisk(After(es).disk) && NamesUnique(After(es).apps)
    requires forall n :: Informed(After(es).disk, n) ==> ReadAs(read, After(es).disk, n)
    requires read.Keys <= After(es).apps.Keys
    ensures Agree(read, After(es).apps)
  {
    var apps := After(es).apps;
    forall k | k in apps
      ensures k in read && read[k].info == apps[k].info
      ensures DirNames(read[k].deployments) == DirNames(apps[k].deployments)
    {
      SameDirs(es, catalog, k);
      AppKept(es, catalog, k);
      assert ReadAs(read, After(es).disk, apps[k].info.name);
    }
  }

  lemma TimelyRestartAgreesIff(es: seq<Event>, catalog: Catalog, root: seq<RootItem>, names: seq<string>)
    requires ProperRun(es, catalog) && Timely(es) && NoneAbandoned(es) && After(es).saving == map[]
    requires WalksRoot(root, names, After(es).disk)
    ensures AppsFrom(root).Success?
    ensures Agree(AppsFrom(root).value, After(es).apps) <==> NamesUnique(After(es).apps)
  {
    RestartReads(es, catalog, root, names);
    var read, apps := AppsFrom(root).value, After(es).apps;
    if NamesUnique(apps) {
      UniqueNamesAgree(es, catalog, read);
    } else {
      var j, k :| j in apps && k in apps && apps[j].info.name == apps[k].info.name && j != k;
      SharedNameLost(es, catalog, read, j, k);
      assert j in apps.Keys && k in apps.Keys;
    }
  }

  /** When a restart loses nothing: after any interleaving of saves that all completed, and in whatever
      order the tree is walked, a new daemon reads exactly the index the old one had if and only if no save
      was dated before 1970 and no two deployments share a name. Deploying an application a second time
      does share it. */
  lemma RestartAgreesIff(es: seq<Event>, catalog: Catalog, root: seq<RootItem>, names: seq<string>)
    requires ProperRun(es, catalog) && NoneAbandoned(es) && After(es).saving == map[]
    requires WalksRoot(root, names, After(es).disk)
    ensures AppsFrom(root).Success? <==> Timely(es)
    ensures AppsFrom(root).Success? && Agree(AppsFrom(root).value, After(es).apps) <==>
            Timely(es) && NamesUnique(After(es).apps)
  {
    if Timely(es) {
      TimelyRestartAgreesIff(es, catalog, root, names);
    } else {
      var n, d := UntimelyLeaves(es, catalog);
      BadDirFails(root, names, After(es).disk, n, d);
    }
  }
}
