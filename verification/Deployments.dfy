/** The store of deployed applications: an index in memory and a directory tree that must agree with it
    after a restart. Saving has three sections: the directory is made and the archive unpacked into it,
    the information file is written, and the index is updated. */
module Deployments {
  import opened Wrappers
  import opened Identifiers
  import opened Entities
  import opened DirectoryNames

  datatype SavedApplication = SavedApplication(info: DeploymentInfo, deployments: seq<SavedDeployment>)

  type AppMap = map<Uuid, SavedApplication>

  /** An application's directory: the information file, if it was written, and one directory for each
      second and hash. */
  datatype AppDir = AppDir(info: Option<Deployment>, dirs: set<string>)

  type Disk = map<string, AppDir>

  // ----- reading the tree -----

  /** What a directory walk meets, in an order nobody controls. A file holds a message, if it decodes. */
  datatype Item = File(contents: Option<Deployment>) | Directory(name: string)
  datatype RootItem = PlainFile | Application(items: seq<Item>)

  datatype ReadError = BadFile | BadName | NoInfo

  /** The information read so far and the deployments read so far. */
  datatype Partial = Partial(info: Option<DeploymentInfo>, deployments: seq<SavedDeployment>)

  function InfoFrom(w: Deployment): Option<DeploymentInfo> {
    match DeploymentFromWire(w)
    case Success(info) => Some(info)
    case Failure(_) => None
  }

  function ReadItem(p: Partial, item: Item): Result<Partial, ReadError> {
    match item
    case File(None) => Failure(BadFile)
    case File(Some(w)) => Success(p.(info := InfoFrom(w)))
    case Directory(name) =>
      match ReadName(name)
      case None => Failure(BadName)
      case Some(d) => Success(p.(deployments := p.deployments + [d]))
  }

  function ReadItems(items: seq<Item>): Result<Partial, ReadError> {
    if items == [] then Success(Partial(None, [])) else
    match ReadItems(items[..|items| - 1])
    case Failure(e) => Failure(e)
    case Success(p) => ReadItem(p, items[|items| - 1])
  }

  function AppFrom(items: seq<Item>): Result<SavedApplication, ReadError> {
    match ReadItems(items)
    case Failure(e) => Failure(e)
    case Success(Partial(None, _)) => Failure(NoInfo)
    case Success(Partial(Some(info), deployments)) => Success(SavedApplication(info, deployments))
  }

  function AppsFrom(root: seq<RootItem>): Result<AppMap, ReadError> {
    if root == [] then Success(map[]) else
    match AppsFrom(root[..|root| - 1])
    case Failure(e) => Failure(e)
    case Success(apps) =>
      match root[|root| - 1]
      case PlainFile => Success(apps)
      case Application(items) =>
        match AppFrom(items)
        case Failure(e) => Failure(e)
        case Success(app) => Success(apps[app.info.id := app])
  }

  /** `read_per_app`: one pass that overwrites the information and collects the deployments. */
  method ReadPerApp(items: seq<Item>) returns (r: Result<SavedApplication, ReadError>)
    ensures r == AppFrom(items)
  {
    var info: Option<DeploymentInfo>, v: seq<SavedDeployment> := None, [];
    for n := 0 to |items|
      invariant ReadItems(items[..n]) == Success(Partial(info, v))
    {
      assert items[..n + 1][..n] == items[..n];
      match items[n] {
        case File(None) =>
          FailureStays(items, n + 1);
          return Failure(BadFile);
        case File(Some(w)) => info := InfoFrom(w);
        case Directory(name) =>
          var d := ReadName(name);
          if d.None? {
            FailureStays(items, n + 1);
            return Failure(BadName);
          }
          v := v + [d.value];
      }
    }
    assert items[..|items|] == items;
    r := if info.None? then Failure(NoInfo) else Success(SavedApplication(info.value, v));
  }

  lemma {:induction false} FailureStays(items: seq<Item>, n: nat)
    requires n <= |items| && ReadItems(items[..n]).Failure?
    ensures ReadItems(items) == ReadItems(items[..n])
  {
    if n < |items| {
      var front := items[..|items| - 1];
      assert front[..n] == items[..n];
      FailureStays(front, n);
    } else {
      assert items[..n] == items;
    }
  }

  /** `read_apps`: files in the root are skipped, applications are collected by id. */
  method ReadApps(root: seq<RootItem>) returns (r: Result<AppMap, ReadError>)
    ensures r == AppsFrom(root)
  {
    var apps: AppMap := map[];
    for n := 0 to |root|
      invariant AppsFrom(root[..n]) == Success(apps)
    {
      assert root[..n + 1][..n] == root[..n];
      if root[n].Application? {
        var app := ReadPerApp(root[n].items);
        if app.Failure? {
          RootFailureStays(root, n + 1);
          return Failure(app.error);
        }
        apps := apps[app.value.info.id := app.value];
      }
    }
    assert root[..|root|] == root;
    r := Success(apps);
  }

  lemma {:induction false} RootFailureStays(root: seq<RootItem>, n: nat)
    requires n <= |root| && AppsFrom(root[..n]).Failure?
    ensures AppsFrom(root) == AppsFrom(root[..n])
  {
    if n < |root| {
      var front := root[..|root| - 1];
      assert front[..n] == root[..n];
      RootFailureStays(front, n);
    } else {
      assert root[..n] == root;
    }
  }

  // ----- walks of a tree -----

  function NamesIn(items: seq<Item>): set<string> {
    set i | 0 <= i < |items| && items[i].Directory? :: items[i].name
  }

  /** A walk of one application's directory. */
  ghost predicate Walks(items: seq<Item>, dir: AppDir) {
    && NamesIn(items) == dir.dirs
    && (forall i :: 0 <= i < |items| && items[i].File? ==>
          dir.info.Some? && items[i].contents == dir.info)
    && (dir.info.Some? ==> HasFile(items))
  }

  function DirNames(ds: seq<SavedDeployment>): set<string> {
    set i | 0 <= i < |ds| :: DirName(ds[i])
  }

  /** A directory name that the program made. */
  ghost predicate MadeName(name: string) {
    exists d :: IsSaved(d) && d.seconds >= 0 && name == DirName(d)
  }

  lemma MadeNameReads(name: string)
    requires MadeName(name)
    ensures ReadName(name).Some? && DirName(ReadName(name).value) == name
  {
    var d :| IsSaved(d) && d.seconds >= 0 && name == DirName(d);
    NameRoundTripIff(d);
  }

  /** Items the program left: a file that decodes, or a directory with a made name. */
  ghost predicate Sane(item: Item) {
    if item.File? then item.contents.Some? else MadeName(item.name)
  }

  lemma NamesSnoc(items: seq<Item>, last: Item)
    ensures NamesIn(items + [last]) == NamesIn(items) + (if last.Directory? then {last.name} else {})
  {
    var all := items + [last];
    forall name | name in NamesIn(items) ensures name in NamesIn(all) {
      var i :| 0 <= i < |items| && items[i].Directory? && items[i].name == name;
      assert all[i] == items[i];
    }
    if last.Directory? {
      assert all[|items|] == last;
    }
  }

  lemma DirNamesSnoc(ds: seq<SavedDeployment>, d: SavedDeployment)
    ensures DirNames(ds + [d]) == DirNames(ds) + {DirName(d)}
  {
    var all := ds + [d];
    forall name | name in DirNames(ds) ensures name in DirNames(all) {
      var i :| 0 <= i < |ds| && DirName(ds[i]) == name;
      assert all[i] == ds[i];
    }
    assert all[|ds|] == d;
  }

  /** Directories with made names always read, and give back exactly their names. */
  lemma {:induction false} ItemsRead(items: seq<Item>)
    requires forall item :: item in items ==> Sane(item)
    ensures ReadItems(items).Success?
    ensures DirNames(ReadItems(items).value.deployments) == NamesIn(items)
  {
    if items != [] {
      var front, last := items[..|items| - 1], items[|items| - 1];
      ItemsRead(front);
      assert items == front + [last];
      assert last in items;
      NamesSnoc(front, last);
      if last.Directory? {
        MadeNameReads(last.name);
        DirNamesSnoc(ReadItems(front).value.deployments, ReadName(last.name).value);
      }
    }
  }

  ghost predicate HasFile(items: seq<Item>) {
    exists i :: 0 <= i < |items| && items[i].File?
  }

  lemma HasFileSnoc(front: seq<Item>, last: Item)
    ensures HasFile(front + [last]) <==> HasFile(front) || last.File?
  {
    var all := front + [last];
    if HasFile(front) {
      var i :| 0 <= i < |front| && front[i].File?;
      assert all[i].File?;
    }
    assert all[|front|] == last;
  }

  lemma InfoStep(front: seq<Item>, last: Item)
    requires ReadItems(front + [last]).Success?
    ensures ReadItems(front).Success?
    ensures ReadItems(front + [last]).value.info ==
            if last.File? && last.contents.Some? then InfoFrom(last.contents.value)
            else ReadItems(front).value.info
  {
    assert (front + [last])[..|front|] == front;
  }

  /** The information is that of the file, if there is one. */
  lemma {:induction false} InfoRead(items: seq<Item>, w: Deployment)
    requires ReadItems(items).Success?
    requires forall i :: 0 <= i < |items| && items[i].File? ==> items[i].contents == Some(w)
    ensures ReadItems(items).value.info == if HasFile(items) then InfoFrom(w) else None
  {
    if items != [] {
      var front, last := items[..|items| - 1], items[|items| - 1];
      assert items == front + [last];
      InfoStep(front, last);
      HasFileSnoc(front, last);
      InfoRead(front, w);
    }
  }

  /** One application's directory reads as its information and its directory names, if the information
      was written; otherwise the walk fails. */
  lemma AppReads(items: seq<Item>, dir: AppDir)
    requires Walks(items, dir) && forall name :: name in dir.dirs ==> MadeName(name)
    requires dir.info.Some? ==> InfoFrom(dir.info.value).Some?
    ensures dir.info.None? ==> AppFrom(items) == Failure(NoInfo)
    ensures dir.info.Some? ==>
      && AppFrom(items).Success? && Some(AppFrom(items).value.info) == InfoFrom(dir.info.value)
      && DirNames(AppFrom(items).value.deployments) == dir.dirs
  {
    forall item | item in items ensures Sane(item)
      ensures item.File? ==> dir.info.Some? && item.contents == dir.info
    {
      var i :| 0 <= i < |items| && items[i] == item;
      if item.Directory? {
        assert item.name in NamesIn(items);
      }
    }
    ItemsRead(items);
    if dir.info.Some? {
      InfoRead(items, dir.info.value);
    } else {
      InfoRead(items, Deployment("", "", ""));
    }
  }
}
