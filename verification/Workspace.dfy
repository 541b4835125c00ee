/**
 * The workspace leases of Workspace.cs: who holds which directory handles, and in what
 * order they are given back. Which calls succeed is up to the system.
 */
module Workspace {
  import opened Common
  import opened AccessList
  import opened Paths

  /** A path on one drive, as its components: `[]` is the drive root, and dropping the last one is `GetDirectoryName`. */
  type Location = seq<string>

  /** What a handle turns out to be open on: its attributes, and the path the system gives for it. */
  datatype Found = Found(directory: bool, reparse: bool, finalPath: string)

  datatype Handle = Invalid | Held(id: nat, path: Location, found: Found)

  datatype Event = Opened(id: nat, path: Location, found: Found) | Closed(id: nat)

  /** The handle table of the process, and all it ever did. */
  class HandleTable {
    var open: set<nat>
    var next: nat
    ghost var trace: seq<Event>
    ghost var failed: bool  // some call failed

    ghost predicate Valid()
      reads this
    {
      forall id | id in open :: id < next
    }

    constructor ()
      ensures Valid() && open == {} && trace == [] && !failed
    {
      open, next, trace, failed := {}, 0, [], false;
    }

    /** `CreateFileW`: an invalid handle, or one nobody has. */
    method Open(path: Location) returns (h: Handle)
      requires Valid()
      modifies this
      ensures Valid()
      ensures h.Invalid? ==> open == old(open) && trace == old(trace) && failed
      ensures h.Held? ==> failed == old(failed)
      ensures h.Held? ==> h.path == path && h.id !in old(open) && open == old(open) + {h.id}
      ensures h.Held? ==> trace == old(trace) + [Opened(h.id, path, h.found)]
    {
      var succeeds: bool := *;
      if succeeds {
        var found: Found := *;
        h := Held(next, path, found);
        open, next, trace := open + {next}, next + 1, trace + [Opened(next, path, found)];
      } else {
        h := Invalid;
        failed := true;
      }
    }

    /** `GetFileInformationByHandle`: the two attribute bits. */
    method Information(h: Handle) returns (ok: bool, directory: bool, reparse: bool)
      requires h.Held?
      modifies this`failed
      ensures ok ==> directory == h.found.directory && reparse == h.found.reparse
      ensures failed == (old(failed) || !ok)
    {
      ok := *;
      directory, reparse := h.found.directory, h.found.reparse;
      failed := failed || !ok;
    }

    /** `GetFinalPathNameByHandleW` with room for 511 characters. */
    method FinalPathName(h: Handle) returns (final: string)
      requires h.Held?
      modifies this`failed
      ensures final == "" || final == h.found.finalPath
      ensures final == "" && 0 < |h.found.finalPath| < 512 ==> failed
      ensures |final| < 512 && (failed == old(failed) || final == "") && (old(failed) ==> failed)
    {
      var works: bool := *;
      final := if works && |h.found.finalPath| < 512 then h.found.finalPath else "";
      failed := failed || !works;
    }

    /** `SafeHandle.Dispose`: nothing for a handle that is not open. */
    method Close(h: Handle)
      requires Valid()
      modifies this
      ensures Valid() && next == old(next)
      ensures open == old(open) - Ids([h]) && failed == old(failed)
      ensures trace == old(trace) + if h.Held? && h.id in old(open) then [Closed(h.id)] else []
    {
      if h.Held? && h.id in open {
        open, trace := open - {h.id}, trace + [Closed(h.id)];
      }
    }
  }

  function Ids(handles: seq<Handle>): set<nat> {
    set h | h in handles && h.Held? :: h.id
  }

  function Opening(h: Handle): seq<Event> { if h.Held? then [Opened(h.id, h.path, h.found)] else [] }

  function Closing(h: Handle): seq<Event> { if h.Held? then [Closed(h.id)] else [] }

  function Openings(handles: seq<Handle>): seq<Event> {
    if handles == [] then [] else Openings(handles[..|handles| - 1]) + Opening(handles[|handles| - 1])
  }

  /** The handles given back last to first. */
  function Closings(handles: seq<Handle>): seq<Event> {
    if handles == [] then [] else Closing(handles[|handles| - 1]) + Closings(handles[..|handles| - 1])
  }

  /** All of them open, and no two the same. */
  ghost predicate Owned(handles: seq<Handle>, open: set<nat>) {
    && (forall i | 0 <= i < |handles| :: handles[i].Held? ==> handles[i].id in open)
    && (forall i, j | 0 <= i < j < |handles| && handles[i].Held? && handles[j].Held? :: handles[i].id != handles[j].id)
  }

  class DirectoryLease {
    var handles: seq<Handle>

    constructor ()
      ensures handles == []
    {
      handles := [];
    }

    method Add(h: Handle)
      modifies this
      ensures handles == old(handles) + [h]
    {
      handles := handles + [h];
    }

    method Dispose(table: HandleTable)
      requires table.Valid() && Owned(handles, table.open)
      modifies this, table
      ensures table.Valid() && handles == [] && table.failed == old(table.failed)
      ensures table.open == old(table.open) - Ids(old(handles))
      ensures table.trace == old(table.trace) + Closings(old(handles))
    {
      var i := |handles|;
      assert handles[..i] == handles;
      while i > 0
        invariant 0 <= i <= |handles| && handles == old(handles) && table.Valid()
        invariant Owned(handles[..i], table.open) && table.failed == old(table.failed)
        invariant table.open - Ids(handles[..i]) == old(table.open - Ids(handles))
        invariant table.trace + Closings(handles[..i]) == old(table.trace + Closings(handles))
      {
        i := i - 1;
        GiveBack(table, handles, i);
      }
      handles := [];
    }
  }

  /** `handles[i].Dispose()`, and what is left to be given back after it. */
  method GiveBack(table: HandleTable, handles: seq<Handle>, i: nat)
    requires table.Valid() && i < |handles| && Owned(handles[..i + 1], table.open)
    modifies table
    ensures table.Valid() && Owned(handles[..i], table.open) && table.failed == old(table.failed)
    ensures table.open - Ids(handles[..i]) == old(table.open) - Ids(handles[..i + 1])
    ensures table.trace + Closings(handles[..i]) == old(table.trace) + Closings(handles[..i + 1])
  {
    hide Owned, Closings, Ids;
    GivingBack(handles, i, table.open);
    table.Close(handles[i]);
    StillOwned(handles, i, old(table.open), table.open);
  }

  lemma GivingBack(handles: seq<Handle>, i: nat, open: set<nat>)
    requires i < |handles| && Owned(handles[..i + 1], open)
    ensures Ids(handles[..i + 1]) == Ids(handles[..i]) + Ids([handles[i]])
    ensures Closings(handles[..i + 1]) == Closing(handles[i]) + Closings(handles[..i])
    ensures handles[i].Held? ==> handles[i].id in open
  {
    var prefix := handles[..i + 1];
    assert prefix == handles[..i] + [handles[i]] && prefix[..i] == handles[..i];
    assert prefix[i] == handles[i];
  }

  lemma StillOwned(handles: seq<Handle>, i: nat, before: set<nat>, open: set<nat>)
    requires i < |handles| && Owned(handles[..i + 1], before) && open == before - Ids([handles[i]])
    ensures Owned(handles[..i], open)
  {
    var prefix := handles[..i + 1];
    assert forall k | 0 <= k < i :: prefix[k] == handles[..i][k];
    assert prefix[i] == handles[i];
  }

  // ----- HoldDirectory -----

  function Text(drive: char, location: Location): string {
    if location == [] then [drive] + ":\\" else [drive] + ":" + Tail(location)
  }

  predicate IsLocalPath(full: string) {
    3 <= |full| < 240 && full[1] == ':' && full[2] == '\\' && ':' !in full[2..]
  }

  /** The directory and its ancestors, root first. */
  method AncestorPaths(full: Location) returns (paths: seq<Location>)
    ensures |paths| == |full| + 1 && forall i | 0 <= i < |paths| :: paths[i] == full[..i]
  {
    paths := [];
    var p := full;
    while true
      invariant |p| <= |full| && p == full[..|p|] && |paths| == |full| - |p|
      invariant forall i | 0 <= i < |paths| :: paths[i] == full[..|full| - i]
      decreases |p|
    {
      paths := paths + [p];
      if p == [] {
        break;
      }
      p := p[..|p| - 1];
    }
    paths := seq(|paths|, i requires 0 <= i < |paths| => paths[|paths| - 1 - i]);
  }

  /** `TrimEnd('\\')`: all up to the backslashes at the end. */
  function TrimBackslashes(s: string): (t: string)
    ensures t <= s && (forall i | |t| <= i < |s| :: s[i] == '\\') && (t != "" ==> t[|t| - 1] != '\\')
  {
    if s != "" && s[|s| - 1] == '\\' then TrimBackslashes(s[..|s| - 1]) else s
  }

  /** A real directory, no link, at the path it was opened by. */
  ghost predicate Solid(found: Found, drive: char, path: Location) {
    && found.directory && !found.reparse
    && 0 < |found.finalPath| < 512
    && SameLetters(TrimBackslashes(found.finalPath), TrimBackslashes("\\\\?\\" + Text(drive, path)))
  }

  lemma {:induction false} TrimmedIs(t: string, end: string)
    requires t != "" && t[|t| - 1] != '\\' && forall i | 0 <= i < |end| :: end[i] == '\\'
    ensures TrimBackslashes(t + end) == t
    decreases |end|
  {
    if end == "" {
      assert t + end == t;
    } else {
      assert (t + end)[..|t + end| - 1] == t + end[..|end| - 1];
      TrimmedIs(t, end[..|end| - 1]);
    }
  }

  lemma TrimmedText(drive: char, location: Location)
    requires forall i | 0 <= i < |location| :: Component(location[i])
    ensures TrimBackslashes("\\\\?\\" + Text(drive, location)) == "\\\\?\\" + Render([[drive] + ":"] + location)
  {
    var names := [[drive] + ":"] + location;
    assert names[1..] == location;
    var end := if location == [] then "\\" else "";
    if location != [] {
      TailEnds(location);
    }
    assert "\\\\?\\" + Text(drive, location) == "\\\\?\\" + Render(names) + end;
    TrimmedIs("\\\\?\\" + Render(names), end);
  }

  lemma {:induction false} TailEnds(names: seq<string>)
    requires names != [] && forall i | 0 <= i < |names| :: Component(names[i])
    ensures Tail(names) != "" && Tail(names)[|Tail(names)| - 1] != '\\'
  {
    if |names| > 1 {
      TailEnds(names[1..]);
    }
  }

  lemma SameBehind(start: string, a: string, b: string)
    ensures SameLetters(start + a, start + b) <==> SameLetters(a, b)
  {
    var x, y := start + a, start + b;
    assert |a| == |b| ==> forall i | 0 <= i < |a| :: x[|start| + i] == a[i] && y[|start| + i] == b[i];
    assert forall i | 0 <= i < |start| && i < |x| && i < |y| :: x[i] == start[i] == y[i];
  }

  /** Such a handle is on exactly the directory it was asked for: the same drive and the same names, but for letter case. */
  lemma SolidIsThere(found: Found, drive: char, path: Location, other: char, there: Location)
    requires !Separator(drive) && !Separator(other)
    requires forall i | 0 <= i < |path| :: Component(path[i])
    requires forall i | 0 <= i < |there| :: Component(there[i])
    requires found.finalPath == "\\\\?\\" + Text(other, there)
    ensures Solid(found, drive, path) <==>
              && found.directory && !found.reparse && |found.finalPath| < 512
              && SameButCase(drive, other) && SameNames(path, there)
  {
    hide SameButCase, SameLetters, SameNames, Text, TrimBackslashes;
    SameFinalPaths(drive, path, other, there);
    SameHeads(drive, path, other, there);
  }

  lemma SameFinalPaths(drive: char, path: Location, other: char, there: Location)
    requires !Separator(drive) && !Separator(other)
    requires forall i | 0 <= i < |path| :: Component(path[i])
    requires forall i | 0 <= i < |there| :: Component(there[i])
    ensures SameLetters(TrimBackslashes("\\\\?\\" + Text(other, there)), TrimBackslashes("\\\\?\\" + Text(drive, path)))
       <==> SameNames([[other] + ":"] + there, [[drive] + ":"] + path)
  {
    hide SameButCase, SameLetters, SameNames, Text, TrimBackslashes, Render, SameIgnoringCase;
    var p, q := [[drive] + ":"] + path, [[other] + ":"] + there;
    TrimmedText(drive, path);
    TrimmedText(other, there);
    SameBehind("\\\\?\\", Render(q), Render(p));
    SameRendered(q, p);
    SameIgnoringCaseExact(Render(q), Render(p));
  }

  lemma SameHeads(drive: char, path: Location, other: char, there: Location)
    ensures SameNames([[other] + ":"] + there, [[drive] + ":"] + path) <==>
              SameButCase(drive, other) && SameNames(path, there)
  {
    var p, q := [[drive] + ":"] + path, [[other] + ":"] + there;
    assert SameLetters(q[0], p[0]) <==> SameButCase(drive, other) by {
      assert q[0][0] == other && p[0][0] == drive;
    }
    if SameNames(q, p) {
      forall i | 0 <= i < |path| ensures SameLetters(path[i], there[i]) {
        assert SameLetters(q[i + 1], p[i + 1]);
      }
    }
    if SameButCase(drive, other) && SameNames(path, there) {
      forall i | 0 <= i < |p| ensures SameLetters(q[i], p[i]) {
        assert i > 0 ==> SameLetters(path[i - 1], there[i - 1]);
      }
    }
  }

  /** What was opened, each by its path, is a real directory there. */
  ghost predicate AllSolid(handles: seq<Handle>, drive: char) {
    forall i | 0 <= i < |handles| && handles[i].Held? :: Solid(handles[i].found, drive, handles[i].path)
  }

  /** These handles are open, and nothing else was opened or closed since `before`. */
  ghost predicate Taken(handles: seq<Handle>, before: set<nat>, open: set<nat>) {
    Owned(handles, open) && Ids(handles) !! before && open == before + Ids(handles)
  }

  /** Valid handles for exactly these paths. */
  ghost predicate ForPaths(handles: seq<Handle>, paths: seq<Location>) {
    |handles| == |paths| && forall i | 0 <= i < |handles| :: handles[i].Held? && handles[i].path == paths[i]
  }

  lemma OpeningsSnoc(start: seq<Event>, handles: seq<Handle>, h: Handle)
    ensures start + Openings(handles) + Opening(h) == start + Openings(handles + [h])
  {
    assert (handles + [h])[..|handles|] == handles;
  }

  lemma IdsSnoc(handles: seq<Handle>, h: Handle)
    ensures Ids(handles + [h]) == Ids(handles) + if h.Held? then {h.id} else {}
  {
    assert forall x :: x in handles + [h] <==> x in handles || x == h;
  }

  lemma TakenSnoc(handles: seq<Handle>, h: Handle, before: set<nat>, open: set<nat>, now: set<nat>)
    requires Taken(handles, before, open)
    requires if h.Held? then h.id !in open && now == open + {h.id} else now == open
    ensures Taken(handles + [h], before, now)
  {
    IdsSnoc(handles, h);
    forall i, j | 0 <= i < j < |handles + [h]| && (handles + [h])[i].Held? && (handles + [h])[j].Held?
      ensures (handles + [h])[i].id != (handles + [h])[j].id
    {
      assert handles[i].id in open;
    }
  }

  /** The checks of an opened handle, in order. */
  method Examine(table: HandleTable, handle: Handle, drive: char) returns (refusal: Option<Refusal>)
    modifies table`failed
    ensures refusal.None? ==> handle.Held? && Solid(handle.found, drive, handle.path) && table.failed == old(table.failed)
    ensures old(table.failed) ==> table.failed
    ensures refusal.Some? && !table.failed ==> handle.Invalid? || !Solid(handle.found, drive, handle.path)
  {
    if handle.Invalid? {
      return Some(NamespaceLock);
    }
    var known, directory, reparse := table.Information(handle);
    if !known {
      return Some(HandleInfo);
    }
    if !directory || reparse {
      return Some(ReparseOrType);
    }
    var final := table.FinalPathName(handle);
    var expected := "\\\\?\\" + Text(drive, handle.path);
    SameIgnoringCaseExact(TrimBackslashes(final), TrimBackslashes(expected));
    if final == "" || !SameIgnoringCase(TrimBackslashes(final), TrimBackslashes(expected)) {
      return Some(FinalPath);
    }
    return None;
  }

  /** One turn of the loop: the handle is added before it is looked at, valid or not. */
  method HoldOne(table: HandleTable, lease: DirectoryLease, drive: char, path: Location,
                 ghost before: set<nat>, ghost start: seq<Event>)
    returns (refusal: Option<Refusal>)
    requires table.Valid() && Taken(lease.handles, before, table.open)
    requires table.trace == start + Openings(lease.handles)
    modifies table, lease
    ensures table.Valid() && Taken(lease.handles, before, table.open)
    ensures table.trace == start + Openings(lease.handles)
    ensures old(lease.handles) <= lease.handles && |lease.handles| == |old(lease.handles)| + 1
    ensures var last := lease.handles[|lease.handles| - 1];
      && (refusal.None? ==> last.Held? && last.path == path && Solid(last.found, drive, path) && table.failed == old(table.failed))
      && (refusal.Some? && !table.failed ==> last.Held? && last.path == path && !Solid(last.found, drive, path))
    ensures old(table.failed) ==> table.failed
  {
    var handle := table.Open(path);
    OpeningsSnoc(start, lease.handles, handle);
    TakenSnoc(lease.handles, handle, before, old(table.open), table.open);
    lease.Add(handle);
    refusal := Examine(table, handle, drive);
  }

  lemma NothingTaken(open: set<nat>, drive: char)
    ensures Taken([], open, open) && AllSolid([], drive) && Openings([]) == []
  {}

  lemma SolidSnoc(handles: seq<Handle>, now: seq<Handle>, drive: char)
    requires handles <= now && |now| == |handles| + 1
    ensures AllSolid(now, drive) <==>
              AllSolid(handles, drive) && var last := now[|handles|]; last.Held? ==> Solid(last.found, drive, last.path)
  {
    assert forall i | 0 <= i < |handles| :: handles[i] == now[i];
  }

  method HoldAll(table: HandleTable, lease: DirectoryLease, drive: char, paths: seq<Location>)
    returns (refusal: Option<Refusal>)
    requires table.Valid() && lease.handles == []
    modifies table, lease
    ensures table.Valid() && Taken(lease.handles, old(table.open), table.open)
    ensures table.trace == old(table.trace) + Openings(lease.handles)
    ensures refusal.None? ==> ForPaths(lease.handles, paths) && AllSolid(lease.handles, drive)
    ensures refusal.None? ==> table.failed == old(table.failed)
    ensures refusal.Some? ==> table.failed || !AllSolid(lease.handles, drive)
  {
    hide Solid, AllSolid, Taken, Openings;
    ghost var before, start := table.open, table.trace;
    NothingTaken(before, drive);
    assert lease.handles == [] && start + Openings([]) == start;
    refusal := None;
    var index := 0;
    while index < |paths| && refusal.None?
      invariant index <= |paths| && table.Valid() && Taken(lease.handles, before, table.open)
      invariant table.trace == start + Openings(lease.handles)
      invariant |lease.handles| == index
      invariant refusal.None? ==> forall i | 0 <= i < index :: lease.handles[i].Held? && lease.handles[i].path == paths[i]
      invariant refusal.None? ==> AllSolid(lease.handles, drive) && table.failed == old(table.failed)
      invariant refusal.Some? ==> table.failed || !AllSolid(lease.handles, drive)
    {
      ghost var sofar := lease.handles;
      refusal := HoldOne(table, lease, drive, paths[index], before, start);
      SolidSnoc(sofar, lease.handles, drive);
      index := index + 1;
    }
  }

  /** Either every ancestor is held, root first, or what was taken is given back in reverse order. */
  method HoldDirectory(table: HandleTable, disk: Disk, drive: char, full: Location)
    returns (r: Result<DirectoryLease, Refusal>, ghost taken: seq<Handle>)
    requires table.Valid()
    modifies table, disk`failed
    ensures table.Valid()
    ensures r.Ok? ==> fresh(r.value) && r.value.handles == taken && Taken(taken, old(table.open), table.open)
    ensures r.Ok? ==> Chain(taken, full) && AllSolid(taken, drive)
    ensures r.Ok? ==> IsLocalPath(Text(drive, full)) && disk.fixedNtfs && disk.persistentAcls
    ensures r.Ok? ==> table.failed == old(table.failed) && disk.failed == old(disk.failed)
    ensures r.Err? ==> table.open == old(table.open)
    ensures table.trace == old(table.trace) + Openings(taken) + if r.Ok? then [] else Closings(taken)
    // It is refused only for a reason.
    ensures r.Err? && !table.failed && !disk.failed ==>
              !IsLocalPath(Text(drive, full)) || !disk.fixedNtfs || !disk.persistentAcls || !AllSolid(taken, drive)
  {
    taken := [];
    if !IsLocalPath(Text(drive, full)) {
      r := Err(LocalPath);
    } else if !disk.fixedNtfs {
      r := Err(LocalNtfs);
    } else {
      var known := disk.VolumeInformation();
      if !known || !disk.persistentAcls {
        r := Err(PersistentAcls);
      } else {
        var paths := AncestorPaths(full);
        r, taken := HoldPaths(table, drive, paths);
      }
    }
  }

  method HoldPaths(table: HandleTable, drive: char, paths: seq<Location>)
    returns (r: Result<DirectoryLease, Refusal>, ghost taken: seq<Handle>)
    requires table.Valid()
    modifies table
    ensures table.Valid()
    ensures r.Ok? ==> fresh(r.value) && r.value.handles == taken && Taken(taken, old(table.open), table.open)
    ensures r.Ok? ==> ForPaths(taken, paths) && AllSolid(taken, drive) && table.failed == old(table.failed)
    ensures r.Err? ==> table.open == old(table.open) && (table.failed || !AllSolid(taken, drive))
    ensures table.trace == old(table.trace) + Openings(taken) + if r.Ok? then [] else Closings(taken)
  {
    var lease := new DirectoryLease();
    var refusal := HoldAll(table, lease, drive, paths);
    taken := lease.handles;
    r := Ok(lease);
    if refusal.Some? {
      lease.Dispose(table);
      r := Err(refusal.value);
    }
  }

  /** Since then something was opened that is not a real directory at its own path. */
  ghost predicate OddSince(trace: seq<Event>, start: nat, drive: char) {
    exists i | start <= i < |trace| :: trace[i].Opened? && !Solid(trace[i].found, drive, trace[i].path)
  }

  lemma {:induction false} OpeningIsThere(handles: seq<Handle>, i: nat)
    requires i < |handles| && handles[i].Held?
    ensures Opened(handles[i].id, handles[i].path, handles[i].found) in Openings(handles)
    decreases |handles|
  {
    if i < |handles| - 1 {
      OpeningIsThere(handles[..|handles| - 1], i);
    }
  }

  lemma StillOdd(trace: seq<Event>, next: seq<Event>, start: nat, later: nat, drive: char)
    requires trace <= next && start <= later
    ensures OddSince(trace, later, drive) ==> OddSince(next, start, drive)
  {
    if OddSince(trace, later, drive) {
      var i :| later <= i < |trace| && trace[i].Opened? && !Solid(trace[i].found, drive, trace[i].path);
      assert next[i] == trace[i];
    }
  }

  lemma OddTaken(before: seq<Event>, taken: seq<Handle>, trace: seq<Event>, drive: char)
    requires before + Openings(taken) <= trace
    ensures !AllSolid(taken, drive) ==> OddSince(trace, |before|, drive)
  {
    if !AllSolid(taken, drive) {
      var i :| 0 <= i < |taken| && taken[i].Held? && !Solid(taken[i].found, drive, taken[i].path);
      OpeningIsThere(taken, i);
      var event := Opened(taken[i].id, taken[i].path, taken[i].found);
      var k :| 0 <= k < |Openings(taken)| && Openings(taken)[k] == event;
      assert trace[|before| + k] == (before + Openings(taken))[|before| + k] == event;
    }
  }

  // ----- WorkspaceLease -----

  /** What the system keeps about a directory: its access list and how much is in it. */
  datatype Directory = Directory(security: Security, entries: nat)

  /** The directories of the drive; any call may fail. */
  class Disk {
    const fixedNtfs: bool
    const persistentAcls: bool
    var directories: map<Location, Directory>
    ghost var failed: bool  // some call failed

    constructor (fixedNtfs: bool, persistentAcls: bool, directories: map<Location, Directory>)
      ensures this.fixedNtfs == fixedNtfs && this.persistentAcls == persistentAcls
      ensures this.directories == directories && !failed
    {
      this.fixedNtfs, this.persistentAcls, this.directories, this.failed := fixedNtfs, persistentAcls, directories, false;
    }

    /** `GetVolumeInformationW`. */
    method VolumeInformation() returns (ok: bool)
      modifies this`failed
      ensures failed == (old(failed) || !ok)
    {
      ok := *;
      failed := failed || !ok;
    }

    /** `ConvertStringSecurityDescriptorToSecurityDescriptorW`. */
    method ConvertDescriptor() returns (ok: bool)
      modifies this`failed
      ensures failed == (old(failed) || !ok)
    {
      ok := *;
      failed := failed || !ok;
    }

    /** `CreateDirectoryW` with its access list: only where there was nothing, and complete at once. */
    method Create(location: Location, security: Security) returns (ok: bool)
      modifies this
      ensures ok ==> location !in old(directories) && directories == old(directories)[location := Directory(security, 0)]
      ensures !ok ==> directories == old(directories) && (location in directories || failed)
      ensures ok ==> failed == old(failed)
    {
      ok := *;
      failed := failed || !ok;
      ok := ok && location !in directories;
      if ok {
        directories := directories[location := Directory(security, 0)];
      }
    }

    /** `Directory.GetAccessControl`. */
    method GetAccessControl(location: Location) returns (r: Option<Security>)
      modifies this`failed
      ensures r.Some? ==> location in directories && r.value == directories[location].security && failed == old(failed)
      ensures r.None? ==> location !in directories || failed
      ensures old(failed) ==> failed
    {
      var works: bool := *;
      failed := failed || !works;
      r := if works && location in directories then Some(directories[location].security) else None;
    }

    /** `Directory.GetFileSystemEntries`. */
    method CountEntries(location: Location) returns (r: Option<nat>)
      modifies this`failed
      ensures r.Some? ==> location in directories && r.value == directories[location].entries && failed == old(failed)
      ensures r.None? ==> location !in directories || failed
      ensures old(failed) ==> failed
    {
      var works: bool := *;
      failed := failed || !works;
      r := if works && location in directories then Some(directories[location].entries) else None;
    }
  }

  /** `CreateNewPrivate`: an existing name is a failure, never a repair of its access list. */
  method CreateNewPrivate(disk: Disk, location: Location, user: string) returns (refusal: Option<Refusal>)
    modifies disk
    ensures refusal.None? ==> location !in old(disk.directories)
    ensures disk.directories == if refusal.None? then old(disk.directories)[location := Directory(Descriptor(user), 0)]
                                else old(disk.directories)
    ensures refusal.Some? ==> location in old(disk.directories) || disk.failed
    ensures refusal.None? ==> disk.failed == old(disk.failed)
  {
    var converted := disk.ConvertDescriptor();
    if !converted {
      return Some(DescriptorInvalid);
    }
    var created := disk.Create(location, Descriptor(user));
    refusal := if created then None else Some(CreateNewFailed);
  }

  /** The checks of the held directory: its access list, and for a new one that nothing is in it. */
  method CheckLeaf(disk: Disk, location: Location, create: bool, user: string) returns (refusal: Option<Refusal>)
    modifies disk`failed
    ensures refusal.None? ==> PrivateAt(disk.directories, location, create, user) && disk.failed == old(disk.failed)
    ensures refusal.Some? ==> !PrivateAt(disk.directories, location, create, user) || disk.failed
    ensures old(disk.failed) ==> disk.failed
  {
    var security := disk.GetAccessControl(location);
    if security.None? {
      return Some(Unforeseen);
    }
    refusal := AssertPrivateDirectory(security.value, user, LOCAL_SYSTEM, ADMINISTRATORS);
    if refusal.None? && create {
      var entries := disk.CountEntries(location);
      refusal := if entries.None? then Some(Unforeseen) else if entries.value != 0 then Some(NotEmpty) else None;
    }
  }

  /** This directory of the disk is private to the user, and empty if it is to be new. */
  ghost predicate PrivateAt(directories: map<Location, Directory>, location: Location, create: bool, user: string) {
    && location in directories
    && Private(directories[location].security, user, LOCAL_SYSTEM, ADMINISTRATORS)
    && (create ==> directories[location].entries == 0)
  }

  /** Nothing on the disk changed but, at most, that this directory was newly created for the user. */
  ghost predicate OnlyCreated(before: map<Location, Directory>, now: map<Location, Directory>, location: Location,
                              create: bool, user: string) {
    now == before || (create && location !in before && now == before[location := Directory(Descriptor(user), 0)])
  }

  predicate IsRunId(runId: string) {
    |runId| == 32 && forall i | 0 <= i < 32 :: LowerHexDigit(runId[i])
  }

  lemma DevIsLocal()
    ensures IsLocalPath(Text('C', ["Dev"]))
  {
    assert Tail(["Dev"]) == "\\" + "Dev" + Tail([]);
    assert Text('C', ["Dev"]) == "C:\\Dev";
  }

  lemma LeafIsLocal(runId: string)
    requires IsRunId(runId)
    ensures IsLocalPath(Text('C', Leaf(runId)))
  {
    LeafText(runId, "SecApp-Control-" + runId);
    var below := "\\Dev\\SecApp-Control-";
    assert ':' !in runId && ':' !in below;
    assert ("C:" + (below + runId))[2..] == below + runId;
  }

  lemma LeafText(runId: string, name: string)
    requires name == "SecApp-Control-" + runId
    ensures Text('C', Leaf(runId)) == "C:" + ("\\Dev\\SecApp-Control-" + runId)
  {
    assert Leaf(runId)[1..] == [name] && [name][1..] == [];
    assert Tail([name]) == "\\" + name;
    assert Tail(Leaf(runId)) == "\\Dev" + ("\\" + name);
    assert "\\Dev" + "\\" + "SecApp-Control-" == "\\Dev\\SecApp-Control-";
  }

  class WorkspaceLease {
    var parents: DirectoryLease?
    var leaf: DirectoryLease?

    constructor ()
      ensures parents == null && leaf == null
    {
      parents, leaf := null, null;
    }

    method Dispose(table: HandleTable)
      requires table.Valid() && parents != leaf
      requires parents != null ==> Owned(parents.handles, table.open)
      requires leaf != null ==> Owned(leaf.handles, table.open)
      requires parents != null && leaf != null ==> Ids(parents.handles) !! Ids(leaf.handles)
      modifies table, parents, leaf
      ensures table.Valid()
      ensures table.failed == old(table.failed)
      ensures table.open == old(table.open)
                - (if leaf == null then {} else Ids(old(leaf.handles)))
                - (if parents == null then {} else Ids(old(parents.handles)))
      ensures table.trace == old(table.trace)
                + (if leaf == null then [] else Closings(old(leaf.handles)))
                + (if parents == null then [] else Closings(old(parents.handles)))
    {
      if leaf != null {
        leaf.Dispose(table);
      }
      if parents != null {
        parents.Dispose(table);
      }
    }

    /** The `try` block of the constructor, with the parents already held. */
    method HoldLeaf(table: HandleTable, disk: Disk, location: Location, create: bool, user: string)
      returns (refusal: Option<Refusal>)
      requires table.Valid() && leaf == null
      modifies this`leaf, table, disk
      ensures table.Valid()
      ensures leaf != null ==> fresh(leaf) && Taken(leaf.handles, old(table.open), table.open)
      ensures leaf == null ==> table.open == old(table.open)
      ensures refusal.None? ==> leaf != null && Chain(leaf.handles, location)
      ensures refusal.None? ==> PrivateAt(disk.directories, location, create, user)
      ensures refusal.None? && create ==> location !in old(disk.directories)
      ensures OnlyCreated(old(disk.directories), disk.directories, location, create, user)
      ensures refusal.None? ==> AllSolid(leaf.handles, 'C')
      ensures refusal.None? ==> table.failed == old(table.failed) && disk.failed == old(disk.failed)
      // It is refused only for a reason.
      ensures refusal.Some? && !table.failed && !disk.failed ==>
                || (create && location in old(disk.directories))
                || !PrivateAt(disk.directories, location, create, user)
                || !IsLocalPath(Text('C', location)) || !disk.fixedNtfs || !disk.persistentAcls
                || OddSince(table.trace, |old(table.trace)|, 'C')
      ensures old(table.trace) <= table.trace
    {
      refusal := None;
      if create {
        refusal := CreateNewPrivate(disk, location, user);
      }
      if refusal.None? {
        var held, taken := HoldDirectory(table, disk, 'C', location);
        if held.Err? {
          refusal := Some(held.error);
          OddTaken(old(table.trace), taken, table.trace, 'C');
        } else {
          leaf := held.value;
          refusal := CheckLeaf(disk, location, create, user);
        }
      }
    }

    /**
     * The constructor: on success both chains of ancestors are held and the directory itself
     * is private; on any failure nothing is held. No existing access list is ever changed.
     */
    method Acquire(table: HandleTable, disk: Disk, runId: string, create: bool, user: string)
      returns (refusal: Option<Refusal>)
      requires table.Valid() && parents == null && leaf == null
      modifies this, table, disk
      ensures table.Valid()
      ensures refusal.None? ==> parents != null && leaf != null && fresh(parents) && fresh(leaf)
      ensures refusal.None? ==> Chain(parents.handles, ["Dev"]) && Chain(leaf.handles, Leaf(runId))
      ensures refusal.None? ==> table.open == old(table.open) + Ids(parents.handles) + Ids(leaf.handles)
      ensures refusal.None? ==> Ids(parents.handles) + Ids(leaf.handles) !! old(table.open)
      ensures refusal.None? ==> IsRunId(runId) && PrivateAt(disk.directories, Leaf(runId), create, user)
      ensures refusal.None? && create ==> Leaf(runId) !in old(disk.directories)
      ensures OnlyCreated(old(disk.directories), disk.directories, Leaf(runId), create, user)
      ensures refusal.None? ==> AllSolid(parents.handles, 'C') && AllSolid(leaf.handles, 'C')
      ensures refusal.Some? ==> table.open == old(table.open)
      // With calls that work it is refused only for the id, the drive, an ancestor, or the directory itself.
      ensures refusal.Some? && !table.failed && !disk.failed ==>
                || !IsRunId(runId) || !disk.fixedNtfs || !disk.persistentAcls
                || OddSince(table.trace, |old(table.trace)|, 'C')
                || (create && Leaf(runId) in old(disk.directories))
                || !PrivateAt(disk.directories, Leaf(runId), create, user)
    {
      hide OddSince, AllSolid, PrivateAt, Text, IsLocalPath, Openings, Closings, Leaf;
      if !IsRunId(runId) {
        return Some(WorkspaceId);
      }
      var root, taken := HoldDirectory(table, disk, 'C', ["Dev"]);
      DevIsLocal();
      LeafIsLocal(runId);
      if root.Err? {
        OddTaken(old(table.trace), taken, table.trace, 'C');
        return Some(root.error);
      }
      parents := root.value;
      ghost var held := table.trace;
      refusal := HoldLeaf(table, disk, Leaf(runId), create, user);
      ghost var tried := table.trace;
      if refusal.Some? {
        Dispose(table);
        StillOdd(tried, table.trace, |old(table.trace)|, |held|, 'C');
      }
    }
  }

  function Leaf(runId: string): Location { ["Dev", "SecApp-Control-" + runId] }

  /** Held from the drive root down to this directory. */
  ghost predicate Chain(handles: seq<Handle>, location: Location) {
    |handles| == |location| + 1 && forall i | 0 <= i <= |location| :: handles[i].Held? && handles[i].path == location[..i]
  }
}

