/** The life of an SMB share: credential file, mount, validation of what was really mounted, and a clean-up that is retried
    until nothing is left. The host's own state is kept beside the backend's fields, which may lag behind it. */
module Smb {
  import opened Errors

  /** The answer to one call; `took` says whether a call that raised had its effect all the same. */
  datatype Reply = Reply(works: bool, took: bool, failure: Failure)

  /** What the kernel reports about the mount point. */
  datatype Mount = Mount(target: string, source: string, fstype: string, options: set<string>)

  datatype Command = MountShare | Umount | Unlink

  const REQUIRED: set<string> := {"vers=3.1.1", "seal", "nosuid", "nodev", "noexec"}

  class SMBBackend {
    const source: string
    const normalize: string -> string
    /** CIFS support, mount options, share name and mount point are usable. */
    const configured: Option<Failure>
    const script: nat -> Reply
    var tick: nat

    var isMounted: bool
    var credentialsFile: bool

    /** The host: is our share mounted, does the credential file exist, has anything been written to the share, and what
        has been run. */
    ghost var mounted: bool
    ghost var credentials: bool
    ghost var written: bool
    ghost var commands: seq<Command>

    /** The fields know of the credential file. */
    ghost predicate Valid()
      reads this
    {
      credentials ==> credentialsFile
    }

    /** The share is mounted and the backend does not know it: nothing will ever unmount it. */
    ghost predicate Lost()
      reads this
    {
      mounted && !isMounted
    }

    constructor (source: string, normalize: string -> string, configured: Option<Failure>, script: nat -> Reply)
      ensures Valid() && Clean() && !mounted && !written && commands == [] && tick == 0
      ensures this.source == source && this.normalize == normalize && this.configured == configured && this.script == script
    {
      this.source, this.normalize, this.configured, this.script, this.tick := source, normalize, configured, script, 0;
      this.isMounted, this.credentialsFile := false, false;
      this.mounted, this.credentials, this.written, this.commands := false, false, false, [];
    }

    /** Nothing that the backend knows of is left to clean up. */
    ghost predicate Clean()
      reads this
    {
      !isMounted && !credentialsFile && !credentials
    }

    /** A clean-up that starts with call `t` and has these two things to undo does not get through. */
    predicate CleanupFails(t: nat, unmount: bool, unlink: bool) {
      (unmount && !script(t).works) || (unlink && !script(if unmount then t + 1 else t).works)
    }

    method Ask() returns (r: Reply)
      modifies this`tick
      ensures r == script(old(tick)) && tick == old(tick) + 1
    {
      r := script(tick);
      tick := tick + 1;
    }

    /** `cleanup`: runs exactly the commands for what is left, and reports what it could not do. `gone` says that the
        credential file has been removed by someone else. */
    method Cleanup(gone: bool) returns (failure: Option<Failure>)
      requires Valid()
      modifies this`tick, this`isMounted, this`credentialsFile, this`mounted, this`credentials, this`commands
      ensures Valid()
      ensures failure == if CleanupFails(old(tick), old(isMounted), old(credentialsFile)
              && !gone) then Some(Coded(E_STORAGE, 0)) else None
      ensures failure.None? <==> Clean()
      ensures Lost() == old(Lost())
      ensures commands == old(commands) + (if old(isMounted) then [Umount] else [])
                          + (if old(credentialsFile) && !gone then [Unlink] else [])
      ensures (isMounted ==> old(isMounted)) && (credentialsFile ==> old(credentialsFile) && !gone)
      ensures old(commands) <= commands
    {
      var failed := false;
      if isMounted {
        var reply := Ask();
        commands := commands + [Umount];
        if reply.works || reply.took { mounted := false; }
        if reply.works { isMounted := false; } else { failed := true; }
      }
      if credentialsFile && !gone {
        var reply := Ask();
        commands := commands + [Unlink];
        if reply.works || reply.took { credentials := false; }
        if reply.works { credentialsFile := false; } else { failed := true; }
      } else {
        credentials := false;
        credentialsFile := false;
      }
      failure := if failed then Some(Coded(E_STORAGE, 0)) else None;
    }

    /** `_reraise_after_cleanup`: the error itself, or the error with a note and its own code. */
    method ReraiseAfterCleanup(exc: Failure, gone: bool) returns (failure: Failure)
      requires Valid()
      modifies this`tick, this`isMounted, this`credentialsFile, this`mounted, this`credentials, this`commands
      ensures Valid()
      ensures failure == if CleanupFails(old(tick), old(isMounted), old(credentialsFile) && !gone)
                         then Combine(exc, Coded(E_STORAGE, 0), E_STORAGE) else exc
      ensures failure == exc <==> Clean()
      ensures Lost() == old(Lost())
      ensures commands == old(commands) + (if old(isMounted) then [Umount] else [])
                          + (if old(credentialsFile) && !gone then [Unlink] else [])
    {
      var cleanup := Cleanup(gone);
      failure := if cleanup.Some? then Combine(exc, cleanup.value, E_STORAGE) else exc;
    }

    /** `_validate_observed_mount` */
    predicate Accepts(m: Mount) {
      normalize(m.source) == normalize(source) && REQUIRED <= m.options
    }

    /** What is seen at the mount point is a CIFS mount of the configured share, encrypted, in version 3.1.1, with nothing on
        it to be trusted. */
    predicate Shows(observed: Option<Mount>) {
      observed.Some?
      && var m := observed.value;
         m.target != "/" && m.fstype == "cifs" && normalize(m.source) == normalize(source)
         && "vers=3.1.1" in m.options && "seal" in m.options
         && "nosuid" in m.options && "nodev" in m.options && "noexec" in m.options
    }

    /** The filesystem backend's preflight with the validator in front of its first write. */
    method PreflightMounted(observed: Option<Mount>) returns (failure: Option<Failure>)
      requires Valid()
      modifies this`tick, this`written
      ensures Valid()
      ensures failure == if !Shows(observed) then Some(Coded(E_STORAGE, 0))
                         else if script(old(tick)).works then None else Some(script(old(tick)).failure)
      ensures written == (old(written) || (Shows(observed) && (script(old(tick)).works || script(old(tick)).took)))
      ensures Shows(observed) ==> tick == old(tick) + 1
      ensures !Shows(observed) ==> tick == old(tick)
    {
      if observed.None? { return Some(Coded(E_STORAGE, 0)); }
      if observed.value.target == "/" { return Some(Coded(E_STORAGE, 0)); }
      if observed.value.fstype != "cifs" { return Some(Coded(E_STORAGE, 0)); }
      if !Accepts(observed.value) { return Some(Coded(E_STORAGE, 0)); }
      var reply := Ask();
      if reply.works || reply.took { written := true; }
      failure := if reply.works then None else Some(reply.failure);
    }

    /** The mount command is run: nothing speaks against it and the credential file could be written by call `t`. */
    predicate Reached(occupied: bool, t: nat) { configured.None? && !occupied && script(t).works }

    /** The mount command raises although the share is mounted. */
    predicate Slips(occupied: bool, t: nat) { Reached(occupied, t) && !script(t + 1).works && script(t + 1).took }

    /** The mount command works. */
    predicate Mounts(occupied: bool, t: nat) { Reached(occupied, t) && script(t + 1).works }

    /** What stands in the way from the mount command, call `t`, on. */
    function AttachComplaint(observed: Option<Mount>, t: nat): Option<Failure> {
      if !script(t).works then Some(script(t).failure)
      else if !Shows(observed) then Some(Coded(E_STORAGE, 0))
      else if script(t + 1).works then None else Some(script(t + 1).failure)
    }

    /** The clean-up of a mount that was not to be does not get through. */
    predicate Stuck(observed: Option<Mount>, gone: bool, t: nat) {
      CleanupFails(if script(t).works && Shows(observed) then t + 2 else t + 1, script(t).works, !gone)
    }

    /** The first thing that stands in the way of a preflight that starts with call `t`. */
    function Complaint(occupied: bool, observed: Option<Mount>, t: nat): Option<Failure> {
      if configured.Some? then configured
      else if occupied || !script(t).works then Some(Coded(E_STORAGE, 0)) else AttachComplaint(observed, t + 1)
    }

    /** A preflight that does not succeed leaves something behind that it knows of. */
    predicate Leaves(occupied: bool, observed: Option<Mount>, gone: bool, unlinked: bool, t: nat) {
      if Reached(occupied, t) then Stuck(observed, gone, t + 1)
      else configured.None? && !occupied && script(t).took && !unlinked
    }

    /** Mount, look at what was mounted, and undo it if it is not what was asked for. */
    method Attach(observed: Option<Mount>, gone: bool) returns (failure: Option<Failure>)
      requires Valid() && credentials && !isMounted && !mounted && !written
      modifies this
      ensures Valid() && (Lost() <==> !script(old(tick)).works && script(old(tick)).took)
      ensures var c := AttachComplaint(observed, old(tick));
        if c.None? then failure == None && isMounted && mounted && credentials
        else failure == Some(if Stuck(observed, gone, old(tick))
                             then Combine(c.value, Coded(E_STORAGE, 0), E_STORAGE) else c.value)
             && (Clean() <==> !Stuck(observed, gone, old(tick)))
      ensures commands == old(commands) + [MountShare]
                          + (if failure.Some? && script(old(tick)).works then [Umount] else [])
                          + (if failure.Some? && !gone then [Unlink] else [])
      ensures written ==> Shows(observed)
    {
      var mount := Ask();
      commands := commands + [MountShare];
      mounted := mount.works || mount.took;
      if mount.works {
        isMounted := true;
        failure := PreflightMounted(observed);
      } else {
        failure := Some(mount.failure);
      }
      if failure.Some? {
        var g := ReraiseAfterCleanup(failure.value, gone);
        failure := Some(g);
      }
    }

    /** `preflight`. `occupied` says that something is mounted there already, `observed` what is seen after the mount,
        `gone` as for the clean-up, `unlinked` whether a credential file that could not be written was removed. It fails
        with what stood in its way, with a note exactly if it knows of something it leaves; what it leaves without knowing
        is a share whose mount command raised all the same. */
    method Preflight(occupied: bool, observed: Option<Mount>, gone: bool, unlinked: bool) returns (failure: Option<Failure>)
      requires Valid() && Clean() && !mounted && !written
      modifies this
      ensures var c, left := Complaint(occupied, observed, old(tick)), Leaves(occupied, observed, gone, unlinked, old(tick));
        if c.None? then failure == None && Valid() && isMounted && credentialsFile && credentials && mounted
        else failure == Some(if left then Combine(c.value, Coded(E_STORAGE, 0), E_STORAGE) else c.value) && (Clean() <==> !left)
      ensures Lost() <==> Slips(occupied, old(tick))
      ensures commands == old(commands) + (if Reached(occupied, old(tick)) then [MountShare] else [])
                          + (if failure.Some? && Mounts(occupied, old(tick)) then [Umount] else [])
                          + (if failure.Some? && Reached(occupied, old(tick)) && !gone then [Unlink] else [])
      ensures Reached(occupied, old(tick)) ==> Valid()
      ensures written ==> Shows(observed)
    {
      if configured.Some? { return configured; }
      if occupied { return Some(Coded(E_STORAGE, 0)); }
      var created := Ask();
      if !created.works {
        credentials := created.took && !unlinked;
        return Some(if created.took && !unlinked then Combine(Coded(E_STORAGE, 0), Coded(E_STORAGE, 0), E_STORAGE)
                    else Coded(E_STORAGE, 0));
      }
      credentials, credentialsFile := true, true;
      failure := Attach(observed, gone);
    }

    /** `publish`, `fetch_latest`, `prune` and the two drill-marker operations: the filesystem operation, and the clean-up
        when it raises; the error is the operation's own, with a note exactly if something is left. */
    method Operate(gone: bool) returns (failure: Option<Failure>)
      requires Valid()
      modifies this
      ensures Valid() && Lost() == old(Lost())
      ensures failure.None? <==> script(old(tick)).works
      ensures written == (old(written) || script(old(tick)).works || script(old(tick)).took)
      ensures failure.None? ==> isMounted == old(isMounted) && credentialsFile == old(credentialsFile)
                                && mounted == old(mounted) && credentials == old(credentials) && commands == old(commands)
      ensures failure.Some? ==> failure.value == if Clean() then script(old(tick)).failure
                                                 else Combine(script(old(tick)).failure, Coded(E_STORAGE, 0), E_STORAGE)
      ensures failure.Some? ==> commands == old(commands) + (if old(isMounted) then [Umount] else [])
                                            + (if old(credentialsFile) && !gone then [Unlink] else [])
    {
      var reply := Ask();
      if reply.works || reply.took { written := true; }
      if reply.works { return None; }
      var g := ReraiseAfterCleanup(reply.failure, gone);
      failure := Some(g);
    }

    /** `close`: the clean-up again, of whatever is still there; on a clean backend it runs nothing. */
    method Close(gone: bool) returns (failure: Option<Failure>)
      requires Valid()
      modifies this
      ensures Valid() && Lost() == old(Lost()) && written == old(written)
      ensures failure.None? <==> Clean()
      ensures commands == old(commands) + (if old(isMounted) then [Umount] else [])
                          + (if old(credentialsFile) && !gone then [Unlink] else [])
      ensures old(Clean()) ==> failure.None? && commands == old(commands)
    {
      failure := Cleanup(gone);
    }
  }

  /** The input at which a share stays mounted and nobody is told: the mount command raises `f` although it mounted, every
      other call works. The error is the command's own, without a note, and closing the backend reports success. */
  method SilentMount(source: string, normalize: string -> string, f: Failure, observed: Option<Mount>)
    returns (failure: Option<Failure>, closed: Option<Failure>, ghost stillMounted: bool, ghost commands: seq<Command>)
    ensures failure == Some(f) && closed == None && stillMounted && commands == [MountShare, Unlink]
  {
    var b := new SMBBackend(source, normalize, None, t => Reply(t != 1, true, f));
    assert b.script(0).works && !b.script(1).works && b.script(1).took && b.script(2).works;
    failure := b.Preflight(false, observed, false, true);
    closed := b.Close(false);
    stillMounted, commands := b.mounted, b.commands;
  }
}
