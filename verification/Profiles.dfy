// The profile registry, its files and the active pointer (src-tauri/src/profiles.rs), with downloads that
// leave the registry unlocked while they wait for the network.
module Profiles {
  import opened Basics
  import opened Text

  datatype Profile = Profile(
    id: string, name: string, url: string, path: Option<string>, updatedAt: Option<nat>, nodes: Option<nat>)

  /** profiles.json, the directory of profile files, and active-profile.json. */
  datatype Disk = Disk(registry: seq<Profile>, files: set<string>, active: Option<string>)

  const SUFFIX_LENGTH := 16

  function PathOf(id: string, suffix: string): string {
    id + "-" + suffix + ".yaml"
  }

  predicate ValidId(id: string) {
    id != [] && forall c <- id :: 'a' <= c <= 'z' || 'A' <= c <= 'Z' || '0' <= c <= '9' || c == '-' || c == '_'
  }

  /** An id is letters, digits, `-` and `_`: nothing that could leave the directory of profile files. */
  lemma IdsAreSafe(id: string)
    ensures ValidId(id) <==>
              && |id| > 0
              && forall c <- id ::
                   var code := c as int; 48 <= code <= 57 || 65 <= code <= 90 || 97 <= code <= 122 || code == 45 || code == 95
  {
  }

  /** A profile's file carries the profile's own id in its name. */
  ghost predicate OwnPath(p: Profile) {
    p.path.Some? ==> exists suffix :: |suffix| == SUFFIX_LENGTH && p.path.value == PathOf(p.id, suffix)
  }

  ghost predicate Consistent(d: Disk) {
    && (forall p <- d.registry :: OwnPath(p) && (p.path.Some? ==> p.path.value in d.files))
    && DistinctIds(d.registry)
    && (forall i, j | 0 <= i < j < |d.registry| :: d.registry[i].url != d.registry[j].url)
    && (d.active.Some? ==> exists p :: p in d.registry && p.id == d.active.value)
  }

  lemma PathsTellIdsApart(a: string, s: string, b: string, t: string)
    requires |s| == |t| && PathOf(a, s) == PathOf(b, t)
    ensures a == b && s == t
  {
    var path := PathOf(a, s);
    assert |a| == |b|;
    assert a == path[..|a|] && b == path[..|b|];
    assert s == path[|a| + 1..|a| + 1 + |s|] && t == path[|b| + 1..|b| + 1 + |t|];
  }

  /** No two profiles share a file. */
  lemma PathsAreDistinct(d: Disk, i: nat, j: nat)
    requires Consistent(d) && i < |d.registry| && j < |d.registry| && i != j && d.registry[i].path.Some?
    ensures d.registry[i].path != d.registry[j].path
  {
    var p, q := d.registry[i], d.registry[j];
    assert p in d.registry && q in d.registry;
    if p.path == q.path {
      var s :| |s| == SUFFIX_LENGTH && p.path.value == PathOf(p.id, s);
      var t :| |t| == SUFFIX_LENGTH && q.path.value == PathOf(q.id, t);
      PathsTellIdsApart(p.id, s, q.id, t);
    }
  }

  predicate SameRevision(current: Profile, expected: Profile) {
    && current.id == expected.id && current.url == expected.url
    && current.path == expected.path && current.updatedAt == expected.updatedAt
  }

  predicate HasPath(registry: seq<Profile>, path: string) {
    exists p <- registry :: p.path == Some(path)
  }

  predicate HasId(registry: seq<Profile>, id: string) {
    exists p <- registry :: p.id == id
  }

  /** The revision is still the current one of a registered profile. */
  predicate Current(registry: seq<Profile>, expected: Profile) {
    exists p <- registry :: SameRevision(p, expected)
  }

  function Downloaded(p: Profile, path: string, at: nat, nodes: Option<nat>): Profile {
    p.(path := Some(path), updatedAt := Some(at), nodes := nodes)
  }

  /** The directory after a download: the new file replaces the previous one, or is taken away again. */
  function FilesAfter(files: set<string>, path: string, previous: Option<string>, ok: bool): set<string> {
    if !ok then files - {path}
    else if previous.Some? && previous.value != path then files + {path} - {previous.value}
    else files + {path}
  }

  method Position(registry: seq<Profile>, id: string) returns (index: Option<nat>)
    ensures index.Some? ==> index.value < |registry| && registry[index.value].id == id
    ensures index.None? <==> !HasId(registry, id)
  {
    var i := 0;
    while i < |registry|
      invariant 0 <= i <= |registry|
      invariant forall k | 0 <= k < i :: registry[k].id != id
    {
      if registry[i].id == id {
        return Some(i);
      }
      i := i + 1;
    }
    index := None;
  }

  /** `commit_download_metadata`: only the revision the download began from may be replaced. */
  method CommitDownload(registry: seq<Profile>, expected: Profile, path: string, at: nat, nodes: Option<nat>)
    returns (r: Result<(seq<Profile>, Option<string>)>)
    ensures r.Ok? ==>
              exists i :: 0 <= i < |registry| && SameRevision(registry[i], expected)
                          && r.value == (registry[i := Downloaded(registry[i], path, at, nodes)], expected.path)
    ensures r.Err? && DistinctIds(registry) ==> forall p <- registry :: !SameRevision(p, expected)
  {
    var index := Position(registry, expected.id);
    if index.None? {
      return Err;
    }
    var current := registry[index.value];
    if !SameRevision(current, expected) {
      return Err;
    }
    r := Ok((registry[index.value := Downloaded(current, path, at, nodes)], current.path));
  }

  lemma CommitKeepsConsistency(d: Disk, i: nat, path: string, suffix: string, at: nat, nodes: Option<nat>)
    requires Consistent(d) && i < |d.registry|
    requires |suffix| == SUFFIX_LENGTH && path == PathOf(d.registry[i].id, suffix) && path in d.files
    ensures var next := d.(registry := d.registry[i := Downloaded(d.registry[i], path, at, nodes)]);
            && Consistent(next)
            && (d.registry[i].path.Some? && d.registry[i].path.value != path ==>
                  !HasPath(next.registry, d.registry[i].path.value))
  {
    var next := d.(registry := d.registry[i := Downloaded(d.registry[i], path, at, nodes)]);
    forall k | 0 <= k < |next.registry|
      ensures OwnPath(next.registry[k])
      ensures next.registry[k].path.Some? ==> next.registry[k].path.value in d.files
      ensures k != i && d.registry[i].path.Some? ==> next.registry[k].path != d.registry[i].path
    {
      assert d.registry[k] in d.registry;
      if k != i && d.registry[i].path.Some? {
        PathsAreDistinct(d, i, k);
      }
    }
    if d.active.Some? {
      var p :| p in d.registry && p.id == d.active.value;
      var k :| 0 <= k < |d.registry| && d.registry[k] == p;
      assert next.registry[k] in next.registry && next.registry[k].id == d.active.value;
    }
  }

  /** A file may go exactly if no profile names it. */
  lemma DroppingAFileExactly(d: Disk, path: string)
    requires Consistent(d)
    ensures Consistent(d.(files := d.files - {path})) <==> !HasPath(d.registry, path)
  {
  }

  function Without(registry: seq<Profile>, i: nat): seq<Profile>
    requires i < |registry|
  {
    registry[..i] + registry[i + 1..]
  }

  lemma PointerSurvives(d: Disk, i: nat)
    requires i < |d.registry| && d.active != Some(d.registry[i].id)
    requires d.active.Some? ==> exists p :: p in d.registry && p.id == d.active.value
    ensures d.active.Some? ==> exists p :: p in Without(d.registry, i) && p.id == d.active.value
  {
    if d.active.Some? {
      var p :| p in d.registry && p.id == d.active.value;
      var k :| 0 <= k < |d.registry| && d.registry[k] == p;
      assert Without(d.registry, i)[if k < i then k else k - 1] == p;
    }
  }

  lemma RemovalKeepsConsistency(d: Disk, i: nat)
    requires Consistent(d) && i < |d.registry| && d.active != Some(d.registry[i].id)
    ensures Consistent(d.(registry := Without(d.registry, i)))
    ensures d.registry[i].path.Some? ==> !HasPath(Without(d.registry, i), d.registry[i].path.value)
  {
    hide OwnPath;
    var next := Without(d.registry, i);
    var before := seq(|next|, k => if k < i then k else k + 1);
    assert forall k | 0 <= k < |next| :: next[k] == d.registry[before[k]] && before[k] != i;
    forall k | 0 <= k < |next|
      ensures OwnPath(next[k]) && (next[k].path.Some? ==> next[k].path.value in d.files)
      ensures d.registry[i].path.Some? ==> next[k].path != d.registry[i].path
    {
      assert d.registry[before[k]] in d.registry;
      if d.registry[i].path.Some? {
        PathsAreDistinct(d, i, before[k]);
      }
    }
    forall j, k | 0 <= j < k < |next|
      ensures next[j].id != next[k].id && next[j].url != next[k].url
    {
      assert before[j] < before[k];
    }
    PointerSurvives(d, i);
  }

  lemma MoreFilesAreHarmless(d: Disk, path: string)
    requires Consistent(d)
    ensures Consistent(d.(files := d.files + {path}))
  {
  }

  lemma PointingIsConsistent(d: Disk, active: Option<string>)
    requires Consistent(d) && (active.Some? ==> HasId(d.registry, active.value))
    ensures Consistent(d.(active := active))
  {
  }

  ghost predicate DistinctIds(registry: seq<Profile>) {
    forall i, j | 0 <= i < j < |registry| :: registry[i].id != registry[j].id
  }

  /** A profile with a URL of its own may be added exactly if its generated id is not in use. */
  lemma AdditionExactly(d: Disk, p: Profile)
    requires Consistent(d) && p.path.None? && forall q <- d.registry :: q.url != p.url
    ensures Consistent(d.(registry := d.registry + [p])) <==> !HasId(d.registry, p.id)
  {
    var next := d.(registry := d.registry + [p]);
    if HasId(d.registry, p.id) {
      var i :| 0 <= i < |d.registry| && d.registry[i].id == p.id;
      assert next.registry[i].id == next.registry[|d.registry|].id;
    }
  }

  datatype Command =
    | Add(name: string, url: string)
    | Download(expected: Profile, at: nat, nodes: Option<nat>)
    | Remove(id: string)
    | Apply(id: string, loads: bool)

  class Registry {
    const faults: nat -> bool
    /** The random parts of a new profile's id and of a downloaded file's name. */
    const ids: nat -> string
    const suffixes: nat -> string
    var step: nat
    var disk: Disk
    ghost var trace: seq<Disk>
    /** A generated id was already in use, or a download that was not committed took away a file in use. */
    ghost var collided: bool

    ghost predicate Valid()
      reads this
    {
      && (forall n :: |suffixes(n)| == SUFFIX_LENGTH)
      && (!collided ==> Consistent(disk) && forall d <- trace :: Consistent(d))
    }

    ghost predicate NoFaults(from: nat, to: nat) {
      forall m | from <= m < to :: !faults(m)
    }

    ghost predicate AtMostOneFault(from: nat, to: nat) {
      forall m, n | from <= m < to && from <= n < to && faults(m) && faults(n) :: m == n
    }

    method Attempt() returns (ok: bool)
      modifies `step
      ensures step == old(step) + 1 && ok == !faults(old(step))
    {
      ok := !faults(step);
      step := step + 1;
    }

    method Become(next: Disk) returns (ok: bool)
      modifies `step, `disk, `trace
      ensures step == old(step) + 1 && ok == !faults(old(step))
      ensures disk == if ok then next else old(disk)
      ensures trace == if ok then old(trace) + [next] else old(trace)
    {
      ok := Attempt();
      if ok {
        disk := next;
        trace := trace + [next];
      }
    }

    /** One atomic write to a consistent disk. */
    method Publish(next: Disk) returns (ok: bool)
      requires Valid() && (collided || Consistent(next))
      modifies `step, `disk, `trace
      ensures Valid()
      ensures step == old(step) + 1 && ok == !faults(old(step))
      ensures disk == if ok then next else old(disk)
    {
      ok := Become(next);
    }

    method RemoveFile(path: string) returns (ok: bool)
      requires Valid() && (collided || !HasPath(disk.registry, path))
      modifies `step, `disk, `trace
      ensures Valid()
      ensures step == old(step) + 1
      ensures disk == if faults(old(step)) then old(disk) else old(disk).(files := old(disk).files - {path})
    {
      if !collided {
        DroppingAFileExactly(disk, path);
      }
      ok := Publish(disk.(files := disk.files - {path}));
    }

    /** `profile_add`, after its texts were accepted. */
    method AddProfile(name: string, url: string) returns (ok: bool)
      requires Valid()
      modifies `step, `disk, `trace, `collided
      ensures Valid()
      ensures ok ==> disk == old(disk).(registry := old(disk).registry
                       + [Profile("profile-" + ids(old(step) + 1), name, url, None, None, None)])
      ensures !ok ==> disk == old(disk)
      ensures ok ==> NoFaults(old(step), step)
      ensures NoFaults(old(step), step) ==> (ok <==> forall p <- old(disk).registry :: p.url != url)
      ensures ok ==> forall p <- old(disk).registry :: p.url != url
      ensures old(collided) ==> collided
      ensures collided ==> old(collided) || HasId(old(disk).registry, "profile-" + ids(old(step) + 1))
    {
      hide Consistent;
      var readable := Attempt();
      ok := readable && forall p <- disk.registry :: p.url != url;
      if ok {
        var id := "profile-" + ids(step);
        ok := Attempt();
        if ok {
          var profile := Profile(id, name, url, None, None, None);
          if !collided {
            AdditionExactly(disk, profile);
          }
          collided := collided || HasId(disk.registry, id);
          ok := Publish(disk.(registry := disk.registry + [profile]));
        }
      }
    }

    /** The locked half of `profile_download`: `expected` is whatever the registry held when the download began. */
    method FinishDownload(expected: Profile, at: nat, nodes: Option<nat>) returns (ok: bool)
      requires Valid()
      modifies `step, `disk, `trace, `collided
      ensures Valid()
      ensures disk.active == old(disk).active
      ensures !ok ==> disk.registry == old(disk).registry
      ensures DistinctIds(old(disk).registry) && (forall p <- old(disk).registry :: !SameRevision(p, expected)) ==> !ok
      ensures ok ==> exists i, suffix :: |suffix| == 16 && 0 <= i < |old(disk).registry| && SameRevision(old(disk).registry[i], expected)
                       && disk.registry == old(disk).registry[i := old(disk).registry[i].(
                            path := Some(expected.id + "-" + suffix + ".yaml"), updatedAt := Some(at), nodes := nodes)]
      ensures NoFaults(old(step), step) && ValidId(expected.id) ==>
                var path := expected.id + "-" + suffixes(old(step) + 1) + ".yaml";
                forall file :: file in disk.files <==>
                  if file == path then ok
                  else file in old(disk).files && !(ok && expected.path == Some(file))
      ensures !ValidId(expected.id) || faults(old(step)) || faults(old(step) + 1) ==> disk == old(disk) && !ok
      ensures NoFaults(old(step), step) && DistinctIds(old(disk).registry) ==>
                (ok <==> ValidId(expected.id) && Current(old(disk).registry, expected))
      ensures old(collided) ==> collided
      ensures collided && !old(collided) ==>
                !ok && exists suffix :: HasPath(old(disk).registry, PathOf(expected.id, suffix))
      ensures old(Consistent(disk)) && (ok || !ValidId(expected.id)) ==> Consistent(disk)
      ensures old(Consistent(disk)) && NoFaults(old(step), step) && ValidId(expected.id) ==>
                (Consistent(disk)
                 <==> ok || !HasPath(old(disk).registry, PathOf(expected.id, suffixes(old(step) + 1))))
    {
      hide OwnPath, SameRevision, HasPath, DistinctIds, Current;
      ok := false;
      var readable := Attempt();
      if readable && ValidId(expected.id) {
        var suffix := suffixes(step);
        var path := PathOf(expected.id, suffix);
        var drawn := Attempt();
        if drawn {
          ok := StoreDownload(expected, suffix, at, nodes);
        }
      }
    }

    /** Write the file, commit the metadata, then drop whichever file is not used. */
    method StoreDownload(expected: Profile, suffix: string, at: nat, nodes: Option<nat>) returns (ok: bool)
      requires Valid() && |suffix| == SUFFIX_LENGTH
      modifies `step, `disk, `trace, `collided
      ensures Valid()
      ensures disk.active == old(disk).active
      ensures !ok ==> disk.registry == old(disk).registry
      ensures DistinctIds(old(disk).registry) && (forall p <- old(disk).registry :: !SameRevision(p, expected)) ==> !ok
      ensures ok ==> exists i :: 0 <= i < |old(disk).registry| && SameRevision(old(disk).registry[i], expected)
                       && disk.registry == old(disk).registry[i := Downloaded(old(disk).registry[i],
                                                                              PathOf(expected.id, suffix), at, nodes)]
      ensures NoFaults(old(step), step) && DistinctIds(old(disk).registry) ==> (ok <==> Current(old(disk).registry, expected))
      ensures old(collided) ==> collided
      ensures collided ==> old(collided) || (!ok && HasPath(old(disk).registry, PathOf(expected.id, suffix)))
      ensures old(Consistent(disk)) && (ok || !HasPath(old(disk).registry, PathOf(expected.id, suffix))) ==>
                Consistent(disk)
      ensures old(Consistent(disk)) && NoFaults(old(step), step) ==>
                (Consistent(disk) <==> ok || !HasPath(old(disk).registry, PathOf(expected.id, suffix)))
      ensures old(step) < step
      ensures NoFaults(old(step), step) ==> disk.files == FilesAfter(old(disk).files, PathOf(expected.id, suffix), expected.path, ok)
      ensures ok ==> PathOf(expected.id, suffix) in disk.files
    {
      hide Consistent, PathOf, HasPath, DistinctIds, SameRevision, Current;
      var path := PathOf(expected.id, suffix);
      ghost var sound := Consistent(disk);
      if sound {
        MoreFilesAreHarmless(disk, path);
      }
      var written := Publish(disk.(files := disk.files + {path}));
      if !written {
        return false;
      }
      ok := CommitStored(expected, suffix, at, nodes);
      if !ok {
        collided := collided || HasPath(disk.registry, path);
        if sound {
          DroppingAFileExactly(disk, path);
        }
        var _ := RemoveFile(path);
      }
    }

    /** Names the stored file in the registry, and removes the one it replaces. */
    method CommitStored(expected: Profile, suffix: string, at: nat, nodes: Option<nat>) returns (ok: bool)
      requires Valid() && |suffix| == SUFFIX_LENGTH && PathOf(expected.id, suffix) in disk.files
      modifies `step, `disk, `trace
      ensures Valid() && old(step) <= step
      ensures !ok ==> disk == old(disk)
      ensures ok ==> disk.active == old(disk).active && PathOf(expected.id, suffix) in disk.files
      ensures DistinctIds(old(disk).registry) && (forall p <- old(disk).registry :: !SameRevision(p, expected)) ==> !ok
      ensures ok ==> exists i :: 0 <= i < |old(disk).registry| && SameRevision(old(disk).registry[i], expected)
                       && disk.registry == old(disk).registry[i := Downloaded(old(disk).registry[i],
                                                                              PathOf(expected.id, suffix), at, nodes)]
      ensures NoFaults(old(step), step) && DistinctIds(old(disk).registry) ==> (ok <==> Current(old(disk).registry, expected))
      ensures old(Consistent(disk)) ==> Consistent(disk)
      ensures ok && NoFaults(old(step), step) ==>
                disk.files == FilesAfter(old(disk).files, PathOf(expected.id, suffix), expected.path, true)
    {
      hide Consistent, PathOf, HasPath, DistinctIds;
      var path := PathOf(expected.id, suffix);
      var r := CommitDownload(disk.registry, expected, path, at, nodes);
      if r.Err? {
        return false;
      }
      ghost var i :| 0 <= i < |disk.registry| && SameRevision(disk.registry[i], expected)
                     && r.value == (disk.registry[i := Downloaded(disk.registry[i], path, at, nodes)], expected.path);
      ghost var sound := Consistent(disk);
      if sound {
        CommitKeepsConsistency(disk, i, path, suffix, at, nodes);
      }
      ok := Publish(disk.(registry := r.value.0));
      if ok && r.value.1.Some? && r.value.1.value != path {
        if sound {
          DroppingAFileExactly(disk, r.value.1.value);
        }
        var _ := RemoveFile(r.value.1.value);
      }
    }

    /** `profile_remove`: first the pointer, then the registry, then the file. */
    method RemoveProfile(id: string) returns (ok: bool)
      requires Valid()
      modifies `step, `disk, `trace
      ensures Valid()
      ensures ok ==> exists i :: 0 <= i < |old(disk).registry| && old(disk).registry[i].id == id
                                 && disk.registry == Without(old(disk).registry, i)
                                 && disk.active == (if old(disk).active == Some(id) then None else old(disk).active)
                                 && (NoFaults(old(step), step) ==>
                                       disk.files == match old(disk).registry[i].path
                                                     case None => old(disk).files
                                                     case Some(path) => old(disk).files - {path})
      ensures !ok ==> disk.registry == old(disk).registry && disk.files == old(disk).files
      ensures faults(old(step)) ==> !ok && disk == old(disk)
      ensures !ok && AtMostOneFault(old(step), step) ==> disk == old(disk)
      ensures NoFaults(old(step), step) ==>
                (ok <==> HasId(old(disk).registry, id)) && (!ok ==> disk == old(disk))
    {
      hide Consistent, Without, HasPath;
      ok := Attempt();
      if !ok {
        return;
      }
      var index := Position(disk.registry, id);
      if index.None? {
        return false;
      }
      var path := disk.registry[index.value].path;
      var wasActive := disk.active == Some(id);
      if wasActive {
        if !collided {
          PointingIsConsistent(disk, None);
        }
        ok := Publish(disk.(active := None));
        if !ok {
          return;
        }
      }
      if !collided {
        RemovalKeepsConsistency(disk, index.value);
        PointingIsConsistent(disk, Some(id));
      }
      ok := Publish(disk.(registry := Without(disk.registry, index.value)));
      if !ok && wasActive {
        var _ := Publish(disk.(active := Some(id)));
      }
      if ok && path.Some? {
        var _ := RemoveFile(path.value);
      }
    }

    /** What applying a profile does to the pointer; a load that fails puts the previous one back. */
    method ApplyProfile(id: string, loads: bool) returns (ok: bool)
      requires Valid()
      modifies `step, `disk, `trace
      ensures Valid()
      ensures disk.registry == old(disk).registry && disk.files == old(disk).files
      ensures ok ==> HasId(disk.registry, id) && disk.active == Some(id)
      ensures ok ==> NoFaults(old(step), step)
      ensures !ok && (faults(old(step)) || faults(old(step) + 1)) ==> disk == old(disk)
      ensures NoFaults(old(step), step) && DistinctIds(disk.registry) ==>
                && (ok <==> loads && exists p <- disk.registry :: p.id == id && p.path.Some? && p.path.value in disk.files)
                && (!ok ==> disk == old(disk))
    {
      hide Consistent;
      ok := Attempt();
      if !ok {
        return;
      }
      var index := Position(disk.registry, id);
      if index.None? || disk.registry[index.value].path.None?
         || disk.registry[index.value].path.value !in disk.files {
        return false;
      }
      var previous := disk;
      if !collided {
        PointingIsConsistent(disk, Some(id));
      }
      ok := Publish(disk.(active := Some(id)));
      if ok && !loads {
        var _ := Publish(previous);
        ok := false;
      }
    }

    /** Commands in any order: a download carries whatever its first, unlocked half saw, however long ago. */
    method Serve(commands: seq<Command>)
      requires Valid()
      modifies `step, `disk, `trace, `collided
      ensures Valid()
    {
      for i := 0 to |commands|
        invariant Valid()
      {
        match commands[i] {
          case Add(name, url) => var _ := AddProfile(name, url);
          case Download(expected, at, nodes) => var _ := FinishDownload(expected, at, nodes);
          case Remove(id) => var _ := RemoveProfile(id);
          case Apply(id, loads) => var _ := ApplyProfile(id, loads);
        }
      }
    }
  }

  /** Once a download has been committed under a new file name, no other begun from the same revision can be. */
  lemma FirstCommitWins(registry: seq<Profile>, i: nat, expected: Profile, path: string, at: nat, nodes: Option<nat>)
    requires DistinctIds(registry) && i < |registry| && SameRevision(registry[i], expected)
    requires expected.path != Some(path)
    ensures var next := registry[i := Downloaded(registry[i], path, at, nodes)];
            DistinctIds(next) && forall p <- next :: !SameRevision(p, expected)
  {
  }
}
