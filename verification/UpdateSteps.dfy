/** What one check, download, start or install leaves behind, branch by branch. */
module UpdateSteps {
  import opened Base
  import opened Semver
  import opened Update

  /** Both assets are published, both arrive, and the installer hashes to the sum listed under its name. */
  predicate Arrives(h: Bytes -> string, rel: Release, a: Attempt) {
    var name := "LocalMonitor-Setup-" + rel.Version() + ".exe";
    && name in rel.assets && "SHA256SUMS" in rel.assets
    && a.dirError.None? && a.sums.Some? && name in a.sums.value
    && a.body.Whole? && h(a.body.bytes) == a.sums.value[name] && a.renameError.None?
  }

  lemma ArrivesIsGood(h: Bytes -> string, rel: Release, a: Attempt)
    ensures Arrives(h, rel, a) <==> Good(h, rel, a)
    ensures Good(h, rel, a) <==>
      Unfit(rel, a).None? && DownloadError(h, a.sums.value[SetupAsset(rel.Version())], a).None?
  {
  }

  /** A release is named by its tag, less one leading v. */
  lemma VersionIs(rel: Release)
    ensures rel.Version() == if rel.tag != "" && rel.tag[0] == 'v' then rel.tag[1..] else rel.tag
  {
    assert rel.tag != "" ==> rel.tag[..1] == [rel.tag[0]];
  }

  // ---- Staging -----------------------------------------------------------------------

  /** The new installer is the only file, on record with its sum, and ready. */
  predicate Holding(h: Bytes -> string, now: Copy, version: string, bytes: Bytes) {
    && now.disk.files == map[Setup(version) := bytes]
    && now.disk.record.readyVersion == version && now.disk.record.readySum == h(bytes)
    && now.status.state == Ready && now.status.latest == version && now.status.err == ""
  }

  /** Nothing staged before was touched: at most the partial file of this download is gone. */
  ghost predicate KeptAll(was: Disk, now: Disk, version: string) {
    && now.record == was.record
    && (forall f :: f in now.files ==> f in was.files && now.files[f] == was.files[f])
    && (forall f :: f in was.files && f != Partial(version) ==> f in now.files)
  }

  /** An attempt either leaves the new installer alone and ready, or leaves what was staged as it was. */
  lemma StagedIs(h: Bytes -> string, c: Copy, rel: Release, a: Attempt)
    ensures var s := Staged(h, c, rel, a);
      && s.release == c.release && s.status.lastChecked == c.status.lastChecked
      && (Arrives(h, rel, a) ==>
            Holding(h, s, rel.Version(), a.body.bytes)
            && s.disk.record == c.disk.record.(readyVersion := rel.Version(), readySum := h(a.body.bytes)))
      && (!Arrives(h, rel, a) ==>
            KeptAll(c.disk, s.disk, rel.Version()) && s.status.latest == c.status.latest
            && (s.status.state == Failed || (a.stopping && s.status.state == Available && s.status.err == "")))
      && (!Arrives(h, rel, a) && !a.stopping ==> s.status.state == Failed)
  {
    hide SetupAsset, TrimPrefix;
    ArrivesIsGood(h, rel, a);
  }

  // ---- A check ------------------------------------------------------------------------

  /** Checking that is switched off, a development run, or a version that is not one: nothing happens. */
  lemma CheckIsSkipped(h: Bytes -> string, c: Copy, policy: Policy, reply: Reply, now: int, a: Attempt)
    requires !policy.enabled || c.dev || Parse(c.current).None?
    ensures Checked(h, c, policy, reply, now, a) == c
  {
  }

  /** Without a release in the answer only the tag and the time move; a failed check moves only the time and the error. */
  lemma CheckWithoutNews(h: Bytes -> string, c: Copy, reply: Reply, automatic: bool, now: int, a: Attempt)
    requires !c.dev && Parse(c.current).Some?
    requires reply.Found? ==> reply.release.draft || reply.release.prerelease
    ensures var was, s := c.disk.record, Checked(h, c, Policy(true, automatic), reply, now, a);
      && s.disk.files == c.disk.files && s.release == c.release
      && s.disk.record == (if reply.NotModified? || reply.Refused? then was else was.(etag := ""))
      && s.status == c.status.(lastChecked := Some(now), err := if reply.Refused? then reply.err else "")
  {
    hide Newer, Parse;
  }

  predicate IsRelease(reply: Reply) { reply.Found? && !reply.release.draft && !reply.release.prerelease }

  /** A release that is not newer withdraws whatever was staged. */
  lemma CheckWithdraws(h: Bytes -> string, c: Copy, reply: Reply, automatic: bool, now: int, a: Attempt)
    requires !c.dev && Parse(c.current).Some? && IsRelease(reply)
    requires !Newer(c.current, reply.release.Version())
    ensures var was, s := c.disk.record, Checked(h, c, Policy(true, automatic), reply, now, a);
      && s.status == Status(Idle, reply.release.Version(), Some(now), "") && s.release == reply.release
      && s.disk.record.latest == reply.release.Version() && s.disk.record.etag == reply.etag
      && s.disk.record.readyVersion == ""
      && s.disk.files == (if was.readyVersion == "" then c.disk.files else map[])
  {
    hide Newer, Parse, TrimPrefix;
  }

  /**
    A newer release is left ready if it is ready already; otherwise it is offered, and with automatic
    downloads on it is fetched at once. Without them nothing that is staged changes.
  */
  lemma CheckOffers(h: Bytes -> string, c: Copy, reply: Reply, automatic: bool, now: int, a: Attempt)
    requires !c.dev && Parse(c.current).Some? && IsRelease(reply)
    requires Newer(c.current, reply.release.Version())
    ensures var v, s := reply.release.Version(), Checked(h, c, Policy(true, automatic), reply, now, a);
      var noted := c.disk.(record := c.disk.record.(latest := v, etag := reply.etag));
      var held := c.status.state == Ready && c.disk.record.readyVersion == v;
      && s.release == reply.release && s.status.latest == v && s.status.lastChecked == Some(now)
      && (held ==> s.disk == noted && s.status.state == Ready && s.status.err == "")
      && (!held && !automatic ==> s.disk == noted && s.status.state == Available && s.status.err == "")
      && (!held && automatic && Arrives(h, reply.release, a) ==> Holding(h, s, v, a.body.bytes))
      && (!held && automatic && !Arrives(h, reply.release, a) ==>
            KeptAll(noted, s.disk, v) && s.status.state in {Failed, Available}
            && (!a.stopping ==> s.status.state == Failed))
  {
    hide Newer, Parse, TrimPrefix, Staged, Arrives;
    var v := reply.release.Version();
    var n := Noted(c, reply.release, reply.etag, now);
    var offered := n.(status := n.status.(state := Available));
    StagedIs(h, offered, reply.release, a);
  }

  // ---- A requested download ---------------------------------------------------------------

  /** The release a request finds: the one known, or else the one a check made first may bring. */
  lemma RequestedDownload(h: Bytes -> string, c: Copy, policy: Policy, reply: Reply, now: int, a: Attempt, again: Attempt)
    ensures var k := if c.release.tag == "" then Checked(h, c, policy, reply, now, a) else c;
      var s := Fetched(h, c, policy, reply, now, a, again);
      var there := k.release.tag != "" && Newer(c.current, k.release.Version());
      && (!there ==> s == k)
      && (there && Arrives(h, k.release, again) ==> Holding(h, s, k.release.Version(), again.body.bytes))
      && (there && !Arrives(h, k.release, again) ==> KeptAll(k.disk, s.disk, k.release.Version()))
  {
    hide Newer, Parse, TrimPrefix, Staged, Arrives, Checked;
    CheckKeepsVersion(h, c, policy, reply, now, a);
    var k := Known(h, c, policy, reply, now, a);
    StagedIs(h, k, k.release, again);
  }

  lemma CheckKeepsVersion(h: Bytes -> string, c: Copy, policy: Policy, reply: Reply, now: int, a: Attempt)
    ensures Checked(h, c, policy, reply, now, a).current == c.current
  {
    hide Newer, Parse, TrimPrefix, Unfit, DownloadError;
  }

  // ---- A start ------------------------------------------------------------------------------

  /**
    A new process is READY exactly when a newer version is on record and its file hashes to the sum
    on record; it offers exactly when nothing is on record and the latest version seen is newer.
    Anything on record that is not ready is dropped together with every file.
  */
  lemma StartIs(h: Bytes -> string, c: Copy, current: string, dev: bool)
    ensures var r, b := c.disk.record, Booted(h, c, current, dev);
      var file := Setup(r.readyVersion);
      var ready := r.readyVersion != "" && Newer(current, r.readyVersion)
        && file in c.disk.files && h(c.disk.files[file]) == r.readySum;
      var offer := r.readyVersion == "" && r.latest != "" && Newer(current, r.latest);
      && b.running && b.current == current && b.dev == dev && b.release.tag == ""
      && b.status.state == (if ready then Ready else if offer then Available else Idle)
      && b.status.latest == (if ready then r.readyVersion else r.latest)
      && b.status.err == (if ready && r.installAt.Some? then INCOMPLETE else "")
      && b.disk.files == (if ready || r.readyVersion == "" then c.disk.files else map[])
      && b.disk.record.readyVersion == (if ready then r.readyVersion else "")
      && (ready ==> b.disk.record.readySum == r.readySum)
      && b.disk.record.installAt == None && b.disk.record.latest == r.latest && b.disk.record.etag == r.etag
  {
    hide Newer;
  }

  // ---- An install ---------------------------------------------------------------------------

  /** A supported copy that reports READY is never refused, for a hash that is never empty. */
  lemma ReadyIsAccepted(h: Bytes -> string, start: Copy, events: seq<Event>)
    requires !start.running && forall b :: h(b) != ""
    requires var c := Run(h, start, events); c.running && c.status.state == Ready && c.Supported()
    ensures Accepts(h, Run(h, start, events))
  {
    hide Newer, Run;
    ReadyIsNewerAndMatches(h, start, events);
  }

  /**
    The installer starts exactly when the file on record is there and hashes to the sum on record;
    then the time is noted. A file that is gone or altered is dropped with everything staged, and
    an altered one is reported.
  */
  lemma InstallIs(h: Bytes -> string, c: Copy, now: int)
    ensures var r, s := c.disk.record, Installed(h, c, now);
      var file := Setup(r.readyVersion);
      var asked := c.installs && !c.dev && Parse(c.current).Some? && r.readyVersion != "" && r.readySum != "";
      var there := file in c.disk.files;
      var good := there && h(c.disk.files[file]) == r.readySum;
      && (Accepts(h, c) <==> asked && good)
      && (!asked ==> s == c)
      && (asked && good ==> s.disk == c.disk.(record := r.(installAt := Some(now)))
                            && s.status == c.status.(state := Installing, err := ""))
      && (asked && !good ==> s.disk.files == map[] && s.disk.record == r.(readyVersion := "", readySum := "", installAt := None))
      && (asked && there && !good ==> s.status == c.status.(state := Failed, err := MISMATCH))
      && (asked && !there ==> s.status == c.status.(state := if c.status.state in {Ready, Installing} then Idle else c.status.state))
  {
    hide Parse;
  }
}
