/**
  The update checker as a state machine: what it keeps in the settings table and in the
  staging directory, what it holds in memory, and what each step does to them.
*/
module Update {
  import opened Base
  import opened Semver

  type Bytes = string

  /** A file of the staging directory. */
  datatype File = Setup(version: string) | Partial(version: string) | Other(name: string)

  /** The settings the checker reads back; an empty text stands for a missing one. */
  datatype Record = Record(latest: string, etag: string, readyVersion: string, readySum: string, installAt: Option<int>)

  datatype Disk = Disk(record: Record, files: map<File, Bytes>)

  datatype State = Idle | Available | Downloading | Ready | Installing | Failed

  datatype Status = Status(state: State, latest: string, lastChecked: Option<int>, err: string)

  datatype Release = Release(tag: string, draft: bool, prerelease: bool, assets: seq<string>) {
    function Version(): string { TrimPrefix(tag, "v") }
  }

  const NO_RELEASE := Release("", false, false, [])

  const SUMS_ASSET := "SHA256SUMS"

  function SetupAsset(version: string): string { "LocalMonitor-Setup-" + version + ".exe" }

  /** Distinct files have distinct names: a partial download is never taken for an installer. */
  lemma NamesAreDistinct(v: string, w: string)
    ensures SetupAsset(v) == SetupAsset(w) ==> v == w
    ensures SetupAsset(v) != SetupAsset(w) + ".partial"
  {
    var a, b := SetupAsset(v), SetupAsset(w);
    assert a[19..|a| - 4] == v && b[19..|b| - 4] == w;
    assert a[|a| - 1] == 'e' && (b + ".partial")[|b| + 7] == 'l';
  }

  /** One installed copy: the running version, what is on disk, and what the process remembers. */
  datatype Copy = Copy(running: bool, current: string, dev: bool, installs: bool, disk: Disk, status: Status, release: Release)
  {
    predicate CanCheck() { !dev && Parse(current).Some? }

    predicate Supported() { installs && CanCheck() }
  }

  // ---- The outside world -----------------------------------------------------------

  datatype Policy = Policy(enabled: bool, automatic: bool)

  datatype Reply = NotModified | NotFound | Refused(err: string) | Found(release: Release, etag: string)

  datatype News = Nothing(etag: string) | Trouble(err: string) | Newest(release: Release, etag: string)

  function Latest(sent: string, reply: Reply): News {
    match reply
    case NotModified => Nothing(sent)
    case NotFound => Nothing("")
    case Refused(err) => Trouble(err)
    case Found(rel, etag) => if rel.draft || rel.prerelease then Nothing("") else Newest(rel, etag)
  }

  datatype Body = Whole(bytes: Bytes) | Unread(err: string) | Broken(err: string)

  /** How one attempt at staging meets the disk and the network. */
  datatype Attempt = Attempt(dirError: Option<string>, sums: Option<map<string, string>>, body: Body,
                             renameError: Option<string>, stopping: bool)

  /** The checksum file lists `sum` for the installer of `version`. */
  predicate Lists(a: Attempt, version: string, sum: string) {
    a.sums.Some? && SetupAsset(version) in a.sums.value && a.sums.value[SetupAsset(version)] == sum
  }

  // ---- What each step does -----------------------------------------------------------

  function Forgotten(d: Disk): Disk {
    d.(record := d.record.(readyVersion := "", readySum := "", installAt := None))
  }

  function Discarded(c: Copy): Copy {
    var state := if c.status.state in {Ready, Installing} then Idle else c.status.state;
    c.(disk := Forgotten(c.disk).(files := map[]), status := c.status.(state := state))
  }

  const INCOMPLETE := "the last install did not complete; see update-install.log"
  const MISMATCH := "staged installer no longer matches its checksum"

  /** The file staged for the recorded version is there and hashes to the recorded sum. */
  predicate Matches(h: Bytes -> string, d: Disk) {
    && Setup(d.record.readyVersion) in d.files
    && h(d.files[Setup(d.record.readyVersion)]) == d.record.readySum
  }

  /** What a new process makes of what the previous one left behind. */
  function Reconciled(h: Bytes -> string, c: Copy): Copy {
    var r := c.disk.record;
    var s := c.status.(state := Idle, latest := r.latest);
    if r.readyVersion == "" then
      var offer := r.latest != "" && Newer(c.current, r.latest);
      c.(disk := if r.installAt.Some? then Forgotten(c.disk) else c.disk,
         status := s.(state := if offer then Available else Idle))
    else if !Newer(c.current, r.readyVersion) || !Matches(h, c.disk) then
      Discarded(c.(status := s))
    else
      c.(disk := c.disk.(record := r.(installAt := None)),
         status := s.(state := Ready, latest := r.readyVersion, err := if r.installAt.Some? then INCOMPLETE else ""))
  }

  /** A new process, of whatever version the installer left. */
  function Booted(h: Bytes -> string, c: Copy, current: string, dev: bool): Copy {
    Reconciled(h, c.(running := true, current := current, dev := dev,
                     status := Status(Idle, "", None, ""), release := NO_RELEASE))
  }

  function GaveUp(c: Copy, err: string): Copy {
    c.(status := c.status.(state := Failed, err := err))
  }

  /** Why nothing is downloaded at all, if so. */
  function Unfit(rel: Release, a: Attempt): Option<string> {
    var name := SetupAsset(rel.Version());
    if name !in rel.assets then Some("no installer")
    else if SUMS_ASSET !in rel.assets then Some("no checksums")
    else if a.dirError.Some? then a.dirError
    else if a.sums.None? then Some("checksums unreadable")
    else if name !in a.sums.value then Some("installer not listed")
    else None
  }

  /** Why a download that was started came to nothing, if it did. */
  function DownloadError(h: Bytes -> string, want: string, a: Attempt): Option<string> {
    match a.body
    case Whole(bytes) => if h(bytes) != want then Some("checksum mismatch") else a.renameError
    case Unread(err) => Some(err)
    case Broken(err) => Some(err)
  }

  /** The partial file is gone again; a service that is shutting down has not failed. */
  function Undone(c: Copy, version: string, a: Attempt, err: string): Copy {
    var left := if a.body.Unread? then c.disk.files else c.disk.files - {Partial(version)};
    c.(disk := c.disk.(files := left),
       status := if a.stopping then c.status.(state := Available, err := "") else c.status.(state := Failed, err := err))
  }

  /** The new installer is the only file left, and it is on record. */
  function Kept(c: Copy, version: string, want: string, bytes: Bytes): Copy {
    c.(disk := Disk(c.disk.record.(readyVersion := version, readySum := want), map[Setup(version) := bytes]),
       status := c.status.(state := Ready, latest := version, err := ""))
  }

  /** Downloads the installer of `rel` and keeps it only if it hashes to what the release lists. */
  function Staged(h: Bytes -> string, c: Copy, rel: Release, a: Attempt): Copy {
    var unfit := Unfit(rel, a);
    if unfit.Some? then GaveUp(c, unfit.value)
    else
      var want := a.sums.value[SetupAsset(rel.Version())];
      var err := DownloadError(h, want, a);
      if err.Some? then Undone(c, rel.Version(), a, err.value) else Kept(c, rel.Version(), want, a.body.bytes)
  }

  /** What is recorded as soon as an answer with a release arrives. */
  function Noted(c: Copy, rel: Release, etag: string, now: int): Copy {
    c.(disk := c.disk.(record := c.disk.record.(latest := rel.Version(), etag := etag)),
       status := c.status.(latest := rel.Version(), lastChecked := Some(now), err := ""),
       release := rel)
  }

  function Checked(h: Bytes -> string, c: Copy, policy: Policy, reply: Reply, now: int, a: Attempt): Copy {
    if !policy.enabled || !c.CanCheck() then c
    else
      match Latest(c.disk.record.etag, reply)
      case Nothing(etag) =>
        c.(disk := c.disk.(record := c.disk.record.(etag := etag)),
           status := c.status.(lastChecked := Some(now), err := ""))
      case Trouble(err) => c.(status := c.status.(lastChecked := Some(now), err := err))
      case Newest(rel, etag) =>
        var n := Noted(c, rel, etag, now);
        if !Newer(c.current, rel.Version()) then
          var d := if n.disk.record.readyVersion != "" then Discarded(n) else n;
          d.(status := d.status.(state := Idle))
        else if n.disk.record.readyVersion == rel.Version() && n.status.state == Ready then n
        else
          var offered := n.(status := n.status.(state := Available));
          if policy.automatic then Staged(h, offered, rel, a) else offered
  }

  /** Someone asked for the newest known release; it is looked up first when none is known. */
  function Known(h: Bytes -> string, c: Copy, policy: Policy, reply: Reply, now: int, a: Attempt): Copy {
    if c.release.tag == "" then Checked(h, c, policy, reply, now, a) else c
  }

  predicate Fetchable(c: Copy) { c.release.tag != "" && Newer(c.current, c.release.Version()) }

  function Fetched(h: Bytes -> string, c: Copy, policy: Policy, reply: Reply, now: int, a: Attempt, again: Attempt): Copy {
    var k := Known(h, c, policy, reply, now, a);
    if Fetchable(k) then Staged(h, k, k.release, again) else k
  }

  predicate Accepts(h: Bytes -> string, c: Copy) {
    c.Supported() && c.disk.record.readyVersion != "" && c.disk.record.readySum != "" && Matches(h, c.disk)
  }

  function Installed(h: Bytes -> string, c: Copy, now: int): Copy {
    var r := c.disk.record;
    if !c.Supported() || r.readyVersion == "" || r.readySum == "" then c
    else if Setup(r.readyVersion) !in c.disk.files then Discarded(c)
    else if !Matches(h, c.disk) then GaveUp(Discarded(c), MISMATCH)
    else c.(disk := c.disk.(record := r.(installAt := Some(now))), status := c.status.(state := Installing, err := ""))
  }

  /** The installer could not be started, found out a moment after the request was answered. */
  function LaunchFailed(c: Copy, err: string): Copy {
    GaveUp(c.(disk := c.disk.(record := c.disk.record.(installAt := None))), err)
  }

  // ---- Runs ------------------------------------------------------------------------

  datatype Op =
    | Boot(current: string, dev: bool)
    | Check(policy: Policy, reply: Reply, now: int, first: Attempt)
    | Fetch(policy: Policy, reply: Reply, now: int, first: Attempt, again: Attempt)
    | Install(now: int)
    | LaunchFails(err: string)

  function After(h: Bytes -> string, c: Copy, op: Op): Copy {
    if op.Boot? then Booted(h, c, op.current, op.dev)
    else if !c.running then c
    else
      match op
      case Check(policy, reply, now, a) => Checked(h, c, policy, reply, now, a)
      case Fetch(policy, reply, now, a, again) => Fetched(h, c, policy, reply, now, a, again)
      case Install(now) => Installed(h, c, now)
      case LaunchFails(err) => LaunchFailed(c, err)
  }

  /** The settings table before a step, after each of its saves, and so at every moment in between. */
  function Saves(h: Bytes -> string, c: Copy, op: Op): (s: seq<Record>)
    ensures s != []
  {
    var last := After(h, c, op).disk.record;
    if !op.Boot? && !c.running then [last]
    else
      match op
      case Check(policy, reply, now, a) => [c.disk.record, FirstSave(c, policy, reply), last]
      case Fetch(policy, reply, now, a, again) =>
        var k := Known(h, c, policy, reply, now, a).disk.record;
        [c.disk.record, if c.release.tag == "" then FirstSave(c, policy, reply) else k, k, last]
      case _ => [c.disk.record, last]
  }

  function FirstSave(c: Copy, policy: Policy, reply: Reply): Record {
    var r := c.disk.record;
    if !policy.enabled || !c.CanCheck() then r
    else
      match Latest(r.etag, reply)
      case Nothing(etag) => r.(etag := etag)
      case Trouble(_) => r
      case Newest(rel, etag) => r.(latest := rel.Version(), etag := etag)
  }

  /** A step that completes, or one cut short after some of its saves with whatever files it left. */
  datatype Event = Do(op: Op) | Crash(op: Op, saved: nat, left: map<File, Bytes>)

  function Step(h: Bytes -> string, c: Copy, e: Event): Copy {
    match e
    case Do(op) => After(h, c, op)
    case Crash(op, saved, left) =>
      var saves := Saves(h, c, op);
      c.(running := false, disk := Disk(saves[if saved < |saves| then saved else |saves| - 1], left))
  }

  function Run(h: Bytes -> string, c: Copy, events: seq<Event>): Copy {
    if events == [] then c else Step(h, Run(h, c, events[..|events| - 1]), events[|events| - 1])
  }

  // ---- READY means checked and newer -----------------------------------------------

  ghost predicate Safe(h: Bytes -> string, c: Copy) {
    c.running ==>
      && (c.disk.record.readyVersion != "" ==> Newer(c.current, c.disk.record.readyVersion))
      && (c.status.state in {Ready, Installing} ==> c.disk.record.readyVersion != "" && Matches(h, c.disk))
  }

  lemma BlankIsNeverNewer(current: string, candidate: string)
    requires Newer(current, candidate)
    ensures candidate != ""
  {
    assert Parse("").None?;
  }

  lemma StagedIsSafe(h: Bytes -> string, c: Copy, rel: Release, a: Attempt)
    requires Safe(h, c) && Newer(c.current, rel.Version())
    ensures Safe(h, Staged(h, c, rel, a))
  {
    hide Newer, TrimPrefix, SetupAsset, Unfit;
    BlankIsNeverNewer(c.current, rel.Version());
  }

  lemma CheckedIsSafe(h: Bytes -> string, c: Copy, policy: Policy, reply: Reply, now: int, a: Attempt)
    requires Safe(h, c)
    ensures Safe(h, Checked(h, c, policy, reply, now, a))
  {
    hide Newer, Parse, TrimPrefix, SetupAsset, Staged;
    if policy.enabled && c.CanCheck() && Latest(c.disk.record.etag, reply).Newest? {
      var rel := Latest(c.disk.record.etag, reply).release;
      var n := Noted(c, rel, Latest(c.disk.record.etag, reply).etag, now);
      if Newer(c.current, rel.Version()) {
        StagedIsSafe(h, n.(status := n.status.(state := Available)), rel, a);
      }
    }
  }

  lemma StepIsSafe(h: Bytes -> string, c: Copy, e: Event)
    requires Safe(h, c)
    ensures Safe(h, Step(h, c, e))
  {
    hide Newer, Parse, TrimPrefix, SetupAsset, Staged, Checked, Saves;
    if e.Do? && c.running {
      match e.op
      case Check(policy, reply, now, a) => CheckedIsSafe(h, c, policy, reply, now, a);
      case Fetch(policy, reply, now, a, again) =>
        CheckedIsSafe(h, c, policy, reply, now, a);
        var k := Known(h, c, policy, reply, now, a);
        if Fetchable(k) {
          StagedIsSafe(h, k, k.release, again);
        }
      case _ =>
    }
  }

  /**
    Over any run, with crashes at any point of any step, a running copy that reports READY
    has recorded a version strictly newer than its own, and the file staged for it hashes to
    the recorded sum. It starts from any disk at all, because the first step looks at it.
  */
  lemma {:induction false} ReadyIsNewerAndMatches(h: Bytes -> string, start: Copy, events: seq<Event>)
    requires !start.running
    ensures var c := Run(h, start, events);
      c.running && c.status.state == Ready ==> Newer(c.current, c.disk.record.readyVersion) && Matches(h, c.disk)
    ensures Safe(h, Run(h, start, events))
  {
    if events != [] {
      ReadyIsNewerAndMatches(h, start, events[..|events| - 1]);
      StepIsSafe(h, Run(h, start, events[..|events| - 1]), events[|events| - 1]);
    }
  }

  // ---- READY means published ---------------------------------------------------------

  function OpOf(e: Event): Op { e.op }

  predicate Vouches(op: Op, version: string, sum: string) {
    match op
    case Check(_, _, _, a) => Lists(a, version, sum)
    case Fetch(_, _, _, a, again) => Lists(a, version, sum) || Lists(again, version, sum)
    case _ => false
  }

  ghost predicate Published(events: seq<Event>, version: string, sum: string) {
    exists k :: 0 <= k < |events| && Vouches(OpOf(events[k]), version, sum)
  }

  /** A record names nothing, what an earlier one named, or what this step's checksums list. */
  ghost predicate Follows(r: Record, before: Record, op: Op) {
    || r.readyVersion == ""
    || (r.readyVersion == before.readyVersion && r.readySum == before.readySum)
    || Vouches(op, r.readyVersion, r.readySum)
  }

  lemma StagedFollows(h: Bytes -> string, c: Copy, rel: Release, a: Attempt)
    ensures var r := Staged(h, c, rel, a).disk.record;
      (r.readyVersion == c.disk.record.readyVersion && r.readySum == c.disk.record.readySum) || Lists(a, r.readyVersion, r.readySum)
  {
    hide TrimPrefix, SetupAsset;
  }

  lemma CheckedFollows(h: Bytes -> string, c: Copy, policy: Policy, reply: Reply, now: int, a: Attempt)
    ensures var r := Checked(h, c, policy, reply, now, a).disk.record;
      || r.readyVersion == ""
      || (r.readyVersion == c.disk.record.readyVersion && r.readySum == c.disk.record.readySum)
      || Lists(a, r.readyVersion, r.readySum)
  {
    hide Newer, Parse, TrimPrefix, SetupAsset, Staged, Lists;
    if policy.enabled && c.CanCheck() && Latest(c.disk.record.etag, reply).Newest? {
      var rel := Latest(c.disk.record.etag, reply).release;
      var n := Noted(c, rel, Latest(c.disk.record.etag, reply).etag, now);
      StagedFollows(h, n.(status := n.status.(state := Available)), rel, a);
    }
  }

  /** What is on record after a step, or after any of its saves. */
  lemma SavesFollow(h: Bytes -> string, c: Copy, op: Op)
    ensures Follows(After(h, c, op).disk.record, c.disk.record, op)
    ensures forall k :: 0 <= k < |Saves(h, c, op)| ==> Follows(Saves(h, c, op)[k], c.disk.record, op)
  {
    hide Newer, Parse, TrimPrefix, SetupAsset, Staged, Checked, Lists, Matches;
    match op
    case Check(policy, reply, now, a) => CheckedFollows(h, c, policy, reply, now, a);
    case Fetch(policy, reply, now, a, again) =>
      CheckedFollows(h, c, policy, reply, now, a);
      var k := Known(h, c, policy, reply, now, a);
      StagedFollows(h, k, k.release, again);
    case _ =>
  }

  lemma StepFollows(h: Bytes -> string, c: Copy, e: Event)
    ensures Follows(Step(h, c, e).disk.record, c.disk.record, e.op)
  {
    hide After, Saves, Follows;
    SavesFollow(h, c, e.op);
  }

  /** Whatever is on record was listed, for that version, by the checksum file of some attempt in the run. */
  lemma {:induction false} RecordWasPublished(h: Bytes -> string, start: Copy, events: seq<Event>)
    requires start.disk.record.readyVersion == ""
    ensures var r := Run(h, start, events).disk.record;
      r.readyVersion != "" ==> Published(events, r.readyVersion, r.readySum)
  {
    if events != [] {
      var n := |events| - 1;
      var c := Run(h, start, events[..n]);
      RecordWasPublished(h, start, events[..n]);
      StepFollows(h, c, events[n]);
      var r := Run(h, start, events).disk.record;
      if r.readyVersion != "" && !Vouches(OpOf(events[n]), r.readyVersion, r.readySum) {
        var k :| 0 <= k < n && Vouches(OpOf(events[..n][k]), r.readyVersion, r.readySum);
        assert OpOf(events[k]) == OpOf(events[..n][k]);
      }
    }
  }

  /**
    The only file `Install` ever runs, at the moment it looks: an installer of a version newer
    than the running one, whose hash a published checksum file listed for that version.
  */
  lemma InstallRunsOnlyWhatWasPublished(h: Bytes -> string, start: Copy, events: seq<Event>)
    requires !start.running && start.disk.record.readyVersion == ""
    requires var c := Run(h, start, events); c.running && Accepts(h, c)
    ensures var d := Run(h, start, events).disk;
      && Newer(Run(h, start, events).current, d.record.readyVersion)
      && Published(events, d.record.readyVersion, h(d.files[Setup(d.record.readyVersion)]))
  {
    ReadyIsNewerAndMatches(h, start, events);
    RecordWasPublished(h, start, events);
  }

  // ---- Restarts --------------------------------------------------------------------

  /** An update that is ready or being installed is still ready after a restart that did not apply it. */
  lemma ReadySurvivesRestart(h: Bytes -> string, c: Copy, dev: bool)
    requires c.running && Safe(h, c) && c.status.state in {Ready, Installing}
    ensures var b := Booted(h, c, c.current, dev);
      && b.status.state == Ready && b.status.latest == c.disk.record.readyVersion
      && b.disk == c.disk.(record := c.disk.record.(installAt := None))
      && (b.status.err == INCOMPLETE <==> c.disk.record.installAt.Some?)
  {
  }

  /** A process that is already at or past what was staged finds nothing to install and keeps no file. */
  lemma AppliedUpdateLeavesNothing(h: Bytes -> string, c: Copy, current: string, dev: bool)
    requires c.disk.record.readyVersion != "" && !Newer(current, c.disk.record.readyVersion)
    ensures var b := Booted(h, c, current, dev);
      b.status.state == Idle && b.disk.files == map[] && b.disk.record.readyVersion == "" && b.disk.record.installAt.None?
  {
    hide Newer;
  }

  // ---- When the same release is fetched again ----------------------------------------

  datatype Server = Server(etag: string, release: Release)

  /** A server that honours If-None-Match. */
  function Answer(server: Server, sent: string): Reply {
    if sent != "" && sent == server.etag then NotModified else Found(server.release, server.etag)
  }

  /** Everything one attempt needs is there and hashes to what is listed. */
  predicate Good(h: Bytes -> string, rel: Release, a: Attempt) {
    && Unfit(rel, a).None? && a.body.Whole? && a.renameError.None?
    && Lists(a, rel.Version(), h(a.body.bytes))
  }

  predicate Holds(c: Copy, version: string) { c.status.state == Ready && c.disk.record.readyVersion == version }

  /**
    With automatic downloads on and nothing wrong with the release, a check ends with it
    ready exactly when it was ready before or the server's tag for it is not the one on record:
    an update that was discarded, or failed once, is not fetched while the answer stays 304.
  */
  lemma CheckStagesIff(h: Bytes -> string, c: Copy, server: Server, now: int, a: Attempt)
    requires c.running && c.CanCheck() && !server.release.draft && !server.release.prerelease
    requires Newer(c.current, server.release.Version()) && Good(h, server.release, a)
    ensures var sent := c.disk.record.etag;
      Holds(Checked(h, c, Policy(true, true), Answer(server, sent), now, a), server.release.Version())
      <==> Holds(c, server.release.Version()) || sent == "" || sent != server.etag
  {
    hide Newer, Parse, TrimPrefix, SetupAsset, Unfit;
  }

  predicate Asks(op: Op, reply: Reply) {
    match op
    case Check(_, r, _, _) => r == reply
    case Fetch(_, r, _, _, _) => r == reply
    case _ => false
  }

  /** Nothing of what has been staged differs, and no release is known that could be fetched. */
  predicate SameUpdate(a: Copy, b: Copy) {
    && a.status.state == b.status.state && a.disk == b.disk && a.release.tag == b.release.tag == ""
    && a.running == b.running && a.current == b.current
  }

  /**
    A new process that finds its staged update gone never gets it back from a server that
    answers 304, however often it checks and even when someone asks for the download.
  */
  lemma {:induction false} NothingIsFetchedWhileUnmodified(h: Bytes -> string, c: Copy, events: seq<Event>)
    requires c.running && c.release.tag == ""
    requires forall k :: 0 <= k < |events| ==> events[k].Do? && Asks(events[k].op, NotModified)
    ensures SameUpdate(Run(h, c, events), c)
  {
    hide Newer, Parse, TrimPrefix, SetupAsset, Staged;
    if events != [] {
      var n := |events| - 1;
      NothingIsFetchedWhileUnmodified(h, c, events[..n]);
      assert Asks(events[n].op, NotModified);
    }
  }

  /** So a staged installer that is gone at startup is forgotten for good, and not fetched again. */
  lemma GoneInstallerStaysGone(h: Bytes -> string, c: Copy, current: string, dev: bool, events: seq<Event>)
    requires c.disk.record.readyVersion != "" && Setup(c.disk.record.readyVersion) !in c.disk.files
    requires forall k :: 0 <= k < |events| ==> events[k].Do? && Asks(events[k].op, NotModified)
    ensures var last := Run(h, Booted(h, c, current, dev), events);
      last.status.state == Idle && last.disk.files == map[] && last.disk.record.readyVersion == ""
  {
    hide Newer;
    NothingIsFetchedWhileUnmodified(h, Booted(h, c, current, dev), events);
  }
}
