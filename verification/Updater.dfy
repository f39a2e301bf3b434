/** The update checker itself: one process over its settings rows and its staging directory. */
module Updater {
  import opened Base
  import opened Semver
  import opened Update

  class Checker {
    const hash: Bytes -> string
    const current: string
    const dev: bool
    const installs: bool

    var record: Record
    var files: map<File, Bytes>
    var status: Status
    var release: Release

    /** A process that has just started over what is on disk; `Reconcile` is its first act. */
    constructor (hash: Bytes -> string, current: string, dev: bool, installs: bool, disk: Disk)
      ensures this.hash == hash
      ensures View() == Copy(true, current, dev, installs, disk, Status(Idle, "", None, ""), NO_RELEASE)
    {
      this.hash, this.current, this.dev, this.installs := hash, current, dev, installs;
      record, files, status, release := disk.record, disk.files, Status(Idle, "", None, ""), NO_RELEASE;
    }

    function View(): Copy
      reads this
    {
      Copy(true, current, dev, installs, Disk(record, files), status, release)
    }

    // ---- Bookkeeping ---------------------------------------------------------------

    method Forget()
      modifies this`record
      ensures View() == old(View()).(disk := Forgotten(old(View()).disk))
    {
      record := record.(readyVersion := "", readySum := "", installAt := None);
    }

    /** Removes every file but one. */
    method Sweep(keep: File)
      modifies this`files
      ensures files == if keep in old(files) then map[keep := old(files)[keep]] else map[]
    {
      var todo := files.Keys;
      while todo != {}
        invariant forall f :: f in files <==> f in old(files) && (f in todo || f == keep)
        invariant forall f :: f in files ==> files[f] == old(files)[f]
        decreases todo
      {
        var f :| f in todo;
        if f != keep {
          files := files - {f};
        }
        todo := todo - {f};
      }
    }

    method DiscardStaged()
      modifies this
      ensures View() == Discarded(old(View()))
    {
      var todo := files.Keys;
      while todo != {}
        invariant files.Keys == todo
        invariant record == old(record) && status == old(status) && release == old(release)
        decreases todo
      {
        var f :| f in todo;
        files := files - {f};
        todo := todo - {f};
      }
      assert files == map[];
      Forget();
      if status.state == Ready || status.state == Installing {
        status := status.(state := Idle);
      }
    }

    // ---- Startup -------------------------------------------------------------------

    method OfferIfNewer(latest: string)
      modifies this`status
      ensures status == old(status).(state := if latest != "" && Newer(current, latest) then Available else old(status).state)
    {
      if latest == "" || !Newer(current, latest) {
        return;
      }
      status := status.(state := Available);
    }

    method Reconcile()
      modifies this
      ensures View() == Reconciled(hash, old(View()))
    {
      hide Newer, Parse;
      var all := record;
      status := status.(latest := all.latest, state := Idle);
      var ready := all.readyVersion;
      var installStarted := all.installAt.Some?;
      if ready == "" {
        if installStarted {
          Forget();
        }
        OfferIfNewer(all.latest);
        return;
      }
      if !Newer(current, ready) {
        DiscardStaged();
        return;
      }
      if Setup(ready) !in files {
        DiscardStaged();
      } else if hash(files[Setup(ready)]) != all.readySum {
        DiscardStaged();
      } else {
        status := status.(state := Ready, latest := ready, err := "");
        if installStarted {
          record := record.(installAt := None);
          status := status.(err := INCOMPLETE);
        }
      }
    }

    // ---- Staging -------------------------------------------------------------------

    /** Writes beside the destination and renames only what hashes to `want`. */
    method Download(version: string, want: string, a: Attempt) returns (err: Option<string>)
      modifies this`files
      ensures err == DownloadError(hash, want, a)
      ensures a.body.Unread? ==> files == old(files)
      ensures !a.body.Unread? && err.Some? ==> files == old(files) - {Partial(version)}
      ensures err.None? ==> files == (old(files) - {Partial(version)})[Setup(version) := a.body.bytes]
    {
      match a.body
      case Unread(e) => return Some(e);
      case Broken(e) =>
        files := files[Partial(version) := ""];
        files := files - {Partial(version)};
        return Some(e);
      case Whole(bytes) =>
        files := files[Partial(version) := bytes];
        if hash(bytes) != want {
          files := files - {Partial(version)};
          return Some("checksum mismatch");
        }
        if a.renameError.Some? {
          files := files - {Partial(version)};
          return a.renameError;
        }
        files := (files - {Partial(version)})[Setup(version) := bytes];
        return None;
    }

    method Fail(err: string) returns (e: Option<string>)
      modifies this`status
      ensures e == Some(err) && View() == GaveUp(old(View()), err)
    {
      status := status.(state := Failed, err := err);
      return Some(err);
    }

    method Stage(rel: Release, a: Attempt) returns (err: Option<string>)
      modifies this
      ensures View() == Staged(hash, old(View()), rel, a)
      ensures err.None? <==> Unfit(rel, a).None? && DownloadError(hash, a.sums.value[SetupAsset(rel.Version())], a).None?
    {
      hide TrimPrefix, SetupAsset;
      var version := rel.Version();
      var name := SetupAsset(version);
      if name !in rel.assets {
        err := Fail("no installer");
        return;
      }
      if SUMS_ASSET !in rel.assets {
        err := Fail("no checksums");
        return;
      }
      if a.dirError.Some? {
        err := Fail(a.dirError.value);
        return;
      }
      if a.sums.None? {
        err := Fail("checksums unreadable");
        return;
      }
      if name !in a.sums.value {
        err := Fail("installer not listed");
        return;
      }
      var want := a.sums.value[name];
      status := status.(state := Downloading, err := "");
      err := Download(version, want, a);
      if err.Some? {
        if a.stopping {
          status := status.(state := Available);
        } else {
          err := Fail(err.value);
        }
        return;
      }
      record := record.(readyVersion := version, readySum := want);
      status := status.(state := Ready, latest := version, err := "");
      Sweep(Setup(version));
    }

    // ---- Checking ------------------------------------------------------------------

    method Once(policy: Policy, reply: Reply, now: int, a: Attempt)
      modifies this
      ensures View() == Checked(hash, old(View()), policy, reply, now, a)
    {
      hide Newer, Parse, TrimPrefix, SetupAsset, Staged;
      if !policy.enabled || !View().CanCheck() {
        return;
      }
      var all := record;
      match Latest(all.etag, reply)
      case Nothing(etag) =>
        record := record.(etag := etag);
        status := status.(lastChecked := Some(now), err := "");
      case Trouble(err) =>
        status := status.(lastChecked := Some(now), err := err);
      case Newest(rel, etag) =>
        var latest := rel.Version();
        release := rel;
        record := record.(latest := latest, etag := etag);
        status := status.(lastChecked := Some(now), latest := latest, err := "");
        if !Newer(current, latest) {
          if all.readyVersion != "" {
            DiscardStaged();
          }
          status := status.(state := Idle);
        } else if all.readyVersion != latest || status.state != Ready {
          status := status.(state := Available);
          if policy.automatic {
            var _ := Stage(rel, a);
          }
        }
    }

    /** Stages the newest known release because someone asked for it. */
    method Fetch(policy: Policy, reply: Reply, now: int, a: Attempt, again: Attempt) returns (err: Option<string>)
      modifies this
      ensures View() == Fetched(hash, old(View()), policy, reply, now, a, again)
      ensures !Fetchable(Known(hash, old(View()), policy, reply, now, a)) ==> err.Some?
    {
      hide Newer, Parse, TrimPrefix, SetupAsset, Staged, Checked;
      if release.tag == "" {
        Once(policy, reply, now, a);
      }
      if release.tag == "" || !Newer(current, release.Version()) {
        return Some("there is no newer release to download");
      }
      err := Stage(release, again);
    }

    // ---- Installing ----------------------------------------------------------------

    /** Hashes the staged file once more and hands it to the installer only if it still matches. */
    method Install(now: int) returns (launched: Option<Bytes>)
      modifies this
      ensures View() == Installed(hash, old(View()), now)
      ensures launched.Some? <==> Accepts(hash, old(View()))
      ensures launched.Some? ==> launched.value == old(files)[Setup(old(record).readyVersion)]
    {
      hide Newer, Parse;
      if !View().Supported() || record.readyVersion == "" || record.readySum == "" {
        return None;
      }
      if Setup(record.readyVersion) !in files {
        DiscardStaged();
        return None;
      }
      var body := files[Setup(record.readyVersion)];
      if hash(body) != record.readySum {
        DiscardStaged();
        var _ := Fail(MISMATCH);
        return None;
      }
      record := record.(installAt := Some(now));
      status := status.(state := Installing, err := "");
      return Some(body);
    }

    method LaunchFails(err: string)
      modifies this
      ensures View() == LaunchFailed(old(View()), err)
    {
      record := record.(installAt := None);
      var _ := Fail(err);
    }
  }
}
