// Projection of config maps and secrets into a pod's volume directories (volume/projection.go).
module Volumes {
  import opened ApiTypes

  // The directory of one volume, below the root of its pod's UID.
  datatype Dir = Dir(uid: string, volume: string)

  // What is in each directory: contents by file name.
  type Tree = map<Dir, map<string, string>>

  // The contents of config maps and secrets by key.
  datatype Config = Config(configMaps: map<Key, map<string, string>>, secrets: map<Key, map<string, string>>)

  // The directories, by volume index, and the files that cannot be written.
  datatype Disk = Disk(badDirs: set<nat>, badFiles: set<(nat, string)>)

  datatype Request = Request(uid: string, ns: string, volumes: seq<Volume>)

  // What a volume holds; None when its source does not exist.
  function Data(config: Config, ns: string, vol: Volume): Option<map<string, string>> {
    match vol.source
    case NoSource => Some(map[])
    case ConfigMapSource(name) =>
      if Key(ns, name) in config.configMaps then Some(config.configMaps[Key(ns, name)]) else None
    case SecretSource(name) =>
      if Key(ns, name) in config.secrets then Some(config.secrets[Key(ns, name)]) else None
  }

  predicate Writable(disk: Disk, i: nat, data: map<string, string>) {
    forall k :: k in data ==> (i, k) !in disk.badFiles
  }

  // Volume i can be projected.
  predicate Projects(config: Config, disk: Disk, r: Request, i: nat)
    requires i < |r.volumes|
  {
    var data := Data(config, r.ns, r.volumes[i]);
    i !in disk.badDirs && data.Some? && Writable(disk, i, data.value)
  }

  predicate CanProject(config: Config, disk: Disk, r: Request) {
    r.uid != "" && forall i :: 0 <= i < |r.volumes| ==> Projects(config, disk, r, i)
  }

  // The directories of the first n volumes by name.
  function Mounts(r: Request, n: nat): map<string, Dir>
    requires n <= |r.volumes|
  {
    if n == 0 then map[]
    else Mounts(r, n - 1)[r.volumes[n - 1].name := Dir(r.uid, r.volumes[n - 1].name)]
  }

  // The directory made, if need be, and the data written into it.
  function Place(t: Tree, dir: Dir, data: map<string, string>): Tree {
    t[dir := (if dir in t then t[dir] else map[]) + data]
  }

  // The tree once the first n volumes are in place.
  function Placed(t: Tree, config: Config, r: Request, n: nat): Tree
    requires n <= |r.volumes|
  {
    if n == 0 then t else
      var before := Placed(t, config, r, n - 1);
      match Data(config, r.ns, r.volumes[n - 1])
      case None => before
      case Some(data) => Place(before, Dir(r.uid, r.volumes[n - 1].name), data)
  }

  // The tree without anything below the root of a UID.
  function Cleaned(t: Tree, uid: string): Tree {
    if uid == "" then t else map d | d in t && d.uid != uid :: t[d]
  }

  class FileSystem {
    var tree: Tree

    constructor (tree: Tree)
      ensures this.tree == tree
    {
      this.tree := tree;
    }

    // All volumes are placed, or the root of the pod's UID is removed.
    method ProjectVolumes(r: Request, config: Config, disk: Disk) returns (projected: Option<map<string, Dir>>)
      modifies this
      ensures projected.Some? <==> CanProject(config, disk, r)
      ensures tree == if projected.Some? then Placed(old(tree), config, r, |r.volumes|) else Cleaned(old(tree), r.uid)
      ensures projected.Some? ==> projected.value == Mounts(r, |r.volumes|)
    {
      if r.uid == "" {
        return None;
      }
      var dirs: map<string, Dir> := map[];
      for i := 0 to |r.volumes|
        invariant forall j :: 0 <= j < i ==> Projects(config, disk, r, j)
        invariant tree == Placed(old(tree), config, r, i)
        invariant dirs == Mounts(r, i)
      {
        var placed := ProjectVolume(r, i, config, disk);
        if !placed {
          CleanedPlaced(old(tree), config, r, i);
          CleanupVolumes(r.uid);
          return None;
        }
        dirs := dirs[r.volumes[i].name := Dir(r.uid, r.volumes[i].name)];
      }
      return Some(dirs);
    }

    // One iteration of the outer loop, without the cleanup on failure.
    method ProjectVolume(r: Request, i: nat, config: Config, disk: Disk) returns (ok: bool)
      requires r.uid != "" && i < |r.volumes|
      modifies this
      ensures ok <==> Projects(config, disk, r, i)
      ensures ok ==> tree == Place(old(tree), Dir(r.uid, r.volumes[i].name), Data(config, r.ns, r.volumes[i]).value)
      ensures Cleaned(tree, r.uid) == Cleaned(old(tree), r.uid)
    {
      var dir := Dir(r.uid, r.volumes[i].name);
      if i in disk.badDirs {
        return false;
      }
      tree := Place(tree, dir, map[]);
      var data := Data(config, r.ns, r.volumes[i]);
      ghost var done: map<string, string> := map[];
      if data.None? {
        ok := false;
        AddNothing(tree, dir);
      } else {
        ok, done := WriteAll(dir, i, data.value, disk);
      }
      PlaceTwice(old(tree), dir, done);
      CleanedPlace(old(tree), dir, done);
    }

    // The inner loop: the files of one volume, in whatever order, until a write fails.
    method WriteAll(dir: Dir, i: nat, data: map<string, string>, disk: Disk)
      returns (ok: bool, ghost done: map<string, string>)
      requires dir in tree
      modifies this
      ensures ok <==> Writable(disk, i, data)
      ensures tree == old(tree)[dir := old(tree)[dir] + done]
      ensures ok ==> done == data
    {
      ghost var base := tree;
      done := map[];
      AddNothing(tree, dir);
      var rest := data.Keys;
      while rest != {}
        invariant Writable(disk, i, done)
        invariant WrittenSoFar(tree, base, dir, data, rest, done)
        decreases |rest|
      {
        var k :| k in rest;
        if (i, k) in disk.badFiles {
          return false, done;
        }
        WrittenOneMore(tree, base, dir, data, rest, done, k);
        done := done[k := data[k]];
        tree := tree[dir := tree[dir][k := data[k]]];
        rest := rest - {k};
      }
      NothingLeft(data);
      return true, done;
    }

    method CleanupVolumes(uid: string)
      modifies this
      ensures tree == Cleaned(old(tree), uid)
    {
      if uid == "" {
        return;
      }
      tree := Cleaned(tree, uid);
    }
  }

  lemma AddNothing(t: Tree, dir: Dir)
    requires dir in t
    ensures t == t[dir := t[dir] + map[]]
  {
    assert t[dir] + map[] == t[dir];
  }

  // The data but the rest has been written into the directory.
  ghost predicate WrittenSoFar(
    t: Tree, base: Tree, dir: Dir, data: map<string, string>, rest: set<string>, done: map<string, string>)
  {
    && rest <= data.Keys && done == data - rest
    && dir in base && t == base[dir := base[dir] + done]
  }

  lemma WrittenOneMore(
    t: Tree, base: Tree, dir: Dir, data: map<string, string>, rest: set<string>, done: map<string, string>, k: string)
    requires WrittenSoFar(t, base, dir, data, rest, done) && k in rest
    ensures dir in t
    ensures WrittenSoFar(t[dir := t[dir][k := data[k]]], base, dir, data, rest - {k}, done[k := data[k]])
  {
    assert base[dir] + done[k := data[k]] == (base[dir] + done)[k := data[k]];
    assert data - (rest - {k}) == (data - rest)[k := data[k]];
  }

  lemma NothingLeft(data: map<string, string>)
    ensures data - {} == data
  {
  }

  lemma PlaceTwice(t: Tree, dir: Dir, data: map<string, string>)
    ensures var made := Place(t, dir, map[]);
      made[dir := made[dir] + data] == Place(t, dir, data)
  {
    var m: map<string, string> := if dir in t then t[dir] else map[];
    assert m + map[] + data == m + data;
  }

  lemma CleanedPlace(t: Tree, dir: Dir, data: map<string, string>)
    requires dir.uid != ""
    ensures Cleaned(Place(t, dir, data), dir.uid) == Cleaned(t, dir.uid)
  {
  }

  // Whatever was placed, cleaning leaves what it would have left before; nothing else was touched.
  lemma {:induction false} CleanedPlaced(t: Tree, config: Config, r: Request, n: nat)
    requires r.uid != "" && n <= |r.volumes|
    ensures Cleaned(Placed(t, config, r, n), r.uid) == Cleaned(t, r.uid)
  {
    if n > 0 {
      CleanedPlaced(t, config, r, n - 1);
      var vol := r.volumes[n - 1];
      match Data(config, r.ns, vol)
      case None =>
      case Some(data) => CleanedPlace(Placed(t, config, r, n - 1), Dir(r.uid, vol.name), data);
    }
  }

  // Volume i gives its directory the file: its config map or secret, of the pod's namespace, is there and has it.
  predicate Holds(config: Config, r: Request, i: nat, dir: Dir, file: string)
    requires i < |r.volumes|
  {
    && dir == Dir(r.uid, r.volumes[i].name)
    && match r.volumes[i].source
       case NoSource => false
       case ConfigMapSource(name) => Key(r.ns, name) in config.configMaps && file in config.configMaps[Key(r.ns, name)]
       case SecretSource(name) => Key(r.ns, name) in config.secrets && file in config.secrets[Key(r.ns, name)]
  }

  function Content(t: Tree, dir: Dir, file: string): Option<string> {
    if dir in t && file in t[dir] then Some(t[dir][file]) else None
  }

  // After a projection a file has the content of the last volume that gives it one.
  lemma {:induction false} PlacedContent(t: Tree, config: Config, r: Request, n: nat, i: nat, dir: Dir, file: string)
    requires i < n <= |r.volumes| && Holds(config, r, i, dir, file)
    requires forall j :: i < j < n ==> !Holds(config, r, j, dir, file)
    ensures Content(Placed(t, config, r, n), dir, file) == match r.volumes[i].source
              case NoSource => None
              case ConfigMapSource(name) => Some(config.configMaps[Key(r.ns, name)][file])
              case SecretSource(name) => Some(config.secrets[Key(r.ns, name)][file])
  {
    if i < n - 1 {
      assert !Holds(config, r, n - 1, dir, file);
      PlacedContent(t, config, r, n - 1, i, dir, file);
    }
  }

  // A file that no volume gives is as it was.
  lemma {:induction false} PlacedElsewhere(t: Tree, config: Config, r: Request, n: nat, dir: Dir, file: string)
    requires n <= |r.volumes| && forall j :: 0 <= j < n ==> !Holds(config, r, j, dir, file)
    ensures Content(Placed(t, config, r, n), dir, file) == Content(t, dir, file)
  {
    if n > 0 {
      assert !Holds(config, r, n - 1, dir, file);
      PlacedElsewhere(t, config, r, n - 1, dir, file);
    }
  }

  // Every volume has a directory of its name below the pod's UID, and nothing else is mounted.
  lemma {:induction false} MountsAre(r: Request, n: nat, name: string)
    requires n <= |r.volumes|
    ensures name in Mounts(r, n) <==> exists i :: 0 <= i < n && r.volumes[i].name == name
    ensures name in Mounts(r, n) ==> Mounts(r, n)[name] == Dir(r.uid, name)
  {
    if n > 0 {
      MountsAre(r, n - 1, name);
    }
  }

  // Cleaning leaves nothing below the UID, everything below others, and everything if there is no UID.
  lemma CleanedHas(t: Tree, uid: string, dir: Dir, file: string)
    ensures Content(Cleaned(t, uid), dir, file) == if uid != "" && dir.uid == uid then None else Content(t, dir, file)
    ensures uid != "" && dir.uid == uid ==> dir !in Cleaned(t, uid)
  {
  }
}
