/**
Agent self-update (agent/executor/update.go) and rollback (agent/update/verify.go)
as operations on four files. Every operation records the states in which a crash
could leave the files, partial writes included; renames are atomic.
*/
module SelfUpdate {
  import opened Wrappers

  type Bytes = seq<bv8>

  datatype Path = Binary | Staging | Previous | Pending

  type Files = map<Path, Bytes>

  /** The digest, and whether a signature of the given key over the bytes verifies. */
  type Hash = Bytes -> string
  type Signed = (Bytes, string, string) -> bool

  datatype Payload = Payload(version: string, sha256: string, signature: string, keyId: string, url: string)

  /** The outcome of each step that can fail; `partial` bytes are what a crash or an error finds half written. */
  datatype Env = Env(
    newer: bool, platform: bool, space: bool,
    download: Bytes, partialDownload: Bytes, downloads: bool,
    hashReads: bool, signatureChecks: bool, chmods: bool,
    copyStarts: bool, partialCopy: nat, copies: bool, renames: bool,
    pending: Bytes, partialPending: Bytes, pendingWrites: bool, removes: bool)

  datatype Status = Failed | Restarting

  /** How far an update has come, as seen in the binary and its backup. */
  datatype Phase = BeforeCopy | InCopy(n: nat) | Copied | Swapped

  predicate Verified(hash: Hash, signed: Signed, p: Payload, b: Bytes) {
    p.sha256 != "" && hash(b) == p.sha256 && p.signature != "" && p.keyId != "" && signed(b, p.signature, p.keyId)
  }

  /** The binary and the backup at a phase of an update that started in `f`. */
  predicate AtPhase(f: Files, got: Bytes, s: Files, ph: Phase) {
    && Binary in f && Binary in s
    && match ph
       case BeforeCopy =>
         && s[Binary] == f[Binary]
         && (Previous in s <==> Previous in f) && (Previous in f ==> s[Previous] == f[Previous])
       case InCopy(n) => s[Binary] == f[Binary] && n <= |f[Binary]| && Previous in s && s[Previous] == f[Binary][..n]
       case Copied => s[Binary] == f[Binary] && Previous in s && s[Previous] == f[Binary]
       case Swapped => s[Binary] == got && Previous in s && s[Previous] == f[Binary]
  }

  ghost predicate InSomePhase(f: Files, got: Bytes, s: Files) {
    exists ph :: AtPhase(f, got, s, ph)
  }

  /** A state an update may leave behind: the new binary only if it was verified. */
  ghost predicate Reached(hash: Hash, signed: Signed, f: Files, p: Payload, got: Bytes, s: Files) {
    s == f || exists ph :: AtPhase(f, got, s, ph) && (ph.Swapped? ==> Verified(hash, signed, p, got))
  }

  class AgentFiles {
    const hash: Hash
    const signed: Signed
    var files: Files
    ghost var seen: seq<Files>

    constructor (hash: Hash, signed: Signed, files: Files)
      ensures this.hash == hash && this.signed == signed && this.files == files && seen == [files]
    {
      this.hash, this.signed, this.files, seen := hash, signed, files, [files];
    }

    /** Writing a file: a crash may find `partial`, an error leaves it. */
    method Write(path: Path, bytes: Bytes, partial: Bytes, works: bool)
      modifies this
      ensures files == old(files)[path := if works then bytes else partial]
      ensures seen == old(seen) + [old(files)[path := partial], files]
    {
      files := files[path := partial];
      seen := seen + [files];
      files := files[path := if works then bytes else partial];
      seen := seen + [files];
    }

    method Remove(path: Path, works: bool)
      modifies this
      ensures files == if works then old(files) - {path} else old(files)
      ensures seen == old(seen) + [files]
    {
      if works {
        files := files - {path};
      }
      seen := seen + [files];
    }

    method Rename(source: Path, target: Path, works: bool) returns (ok: bool)
      modifies this
      ensures ok <==> works && source in old(files)
      ensures files == if ok then (old(files) - {source})[target := old(files)[source]] else old(files)
      ensures seen == old(seen) + [files]
    {
      ok := works && source in files;
      if ok {
        var bytes := files[source];
        files := (files - {source})[target := bytes];
      }
      seen := seen + [files];
    }

    /** Download, digest and signature checks: only the staging file changes. */
    method StageVerified(p: Payload, env: Env) returns (ok: bool)
      requires Binary in files
      modifies this
      ensures |seen| >= |old(seen)| && seen[..|old(seen)|] == old(seen)
      ensures forall i :: |old(seen)| <= i < |seen| ==> AtPhase(old(files), env.download, seen[i], BeforeCopy)
      ensures AtPhase(old(files), env.download, files, BeforeCopy)
      ensures ok ==> Verified(hash, signed, p, env.download) && files == old(files)[Staging := env.download]
      ensures ok <==> env.downloads && env.hashReads && env.signatureChecks && env.chmods &&
                      Verified(hash, signed, p, env.download)
    {
      Write(Staging, env.download, env.partialDownload, env.downloads);
      if !env.downloads {
        Remove(Staging, env.removes);
        return false;
      }
      if p.sha256 == "" || !env.hashReads || hash(files[Staging]) != p.sha256 ||
         p.signature == "" || p.keyId == "" || !env.signatureChecks ||
         !signed(files[Staging], p.signature, p.keyId) || !env.chmods
      {
        Remove(Staging, env.removes);
        return false;
      }
      return true;
    }

    /** Backup, swap and pending file, once the staged binary is verified. */
    method InstallStaged(env: Env, ghost f: Files) returns (ok: bool)
      requires Binary in f && files == f[Staging := env.download]
      modifies this
      ensures ok <==> env.copyStarts && env.copies && env.renames
      ensures |seen| >= |old(seen)| && seen[..|old(seen)|] == old(seen)
      ensures forall i :: |old(seen)| <= i < |seen| ==> InSomePhase(f, env.download, seen[i])
      ensures !ok ==> exists ph :: AtPhase(f, env.download, files, ph) && !ph.Swapped?
      ensures ok ==>
                && files.Keys == f.Keys - {Staging} + {Binary, Previous, Pending}
                && files[Binary] == env.download && files[Previous] == f[Binary]
                && files[Pending] == if env.pendingWrites then env.pending else env.partialPending
    {
      var copied := CopyToPrevious(env);
      ghost var cut := f[Staging := env.download][Previous := f[Binary][..Cut(f, env)]];
      ghost var ph := if env.copyStarts then InCopy(Cut(f, env)) else BeforeCopy;
      assert AtPhase(f, env.download, cut, InCopy(Cut(f, env)));
      assert InSomePhase(f, env.download, cut);
      if !copied {
        assert AtPhase(f, env.download, files, ph);
        assert InSomePhase(f, env.download, files);
        Remove(Staging, env.removes);
        assert AtPhase(f, env.download, files, ph);
        assert InSomePhase(f, env.download, files);
        return false;
      }
      assert AtPhase(f, env.download, files, Copied);
      var moved := Rename(Staging, Binary, env.renames);
      if !moved {
        Remove(Staging, env.removes);
        assert AtPhase(f, env.download, files, Copied);
        return false;
      }
      assert AtPhase(f, env.download, files, Swapped);
      ghost var swapped := files;
      Write(Pending, env.pending, env.partialPending, env.pendingWrites);
      assert AtPhase(f, env.download, swapped[Pending := env.partialPending], Swapped);
      assert AtPhase(f, env.download, files, Swapped);
      return true;
    }

    /**
    At every crash or failure point the binary is the complete old one or the
    complete verified new one; on success the backup is the old one.
    */
    method ExecuteAgentUpdate(p: Payload, env: Env) returns (status: Status)
      modifies this
      ensures status == Restarting <==>
                && p.version != "" && env.newer && env.platform && Binary in old(files) && env.space && p.url != ""
                && env.downloads && p.sha256 != "" && env.hashReads && hash(env.download) == p.sha256
                && p.signature != "" && p.keyId != "" && env.signatureChecks
                && signed(env.download, p.signature, p.keyId) && env.chmods
                && env.copyStarts && env.copies && env.renames
      ensures |old(seen)| <= |seen| && seen[..|old(seen)|] == old(seen)
      ensures forall i :: |old(seen)| <= i < |seen| ==>
                Reached(hash, signed, old(files), p, env.download, seen[i])
      ensures status == Failed ==> Reached(hash, signed, old(files), p, env.download, files)
      ensures status == Failed && Binary in old(files) ==> Binary in files && files[Binary] == old(files)[Binary]
      ensures status == Restarting ==>
                && Binary in old(files) && Verified(hash, signed, p, env.download)
                && AtPhase(old(files), env.download, files, Swapped)
                && files.Keys == old(files).Keys - {Staging} + {Binary, Previous, Pending}
                && files[Binary] == env.download && files[Previous] == old(files)[Binary]
                && files[Pending] == if env.pendingWrites then env.pending else env.partialPending
    {
      ghost var f := files;
      if p.version == "" || !env.newer || !env.platform || Binary !in files || !env.space || p.url == "" {
        return Failed;
      }
      var staged := StageVerified(p, env);
      if !staged {
        return Failed;
      }
      var installed := InstallStaged(env, f);
      return if installed then Restarting else Failed;
    }

    static function Cut(f: Files, env: Env): nat
      requires Binary in f
      ensures Cut(f, env) <= |f[Binary]|
    {
      if env.partialCopy <= |f[Binary]| then env.partialCopy else |f[Binary]|
    }

    /** Opening the binary and creating the backup come first; only then is the backup overwritten. */
    method CopyToPrevious(env: Env) returns (ok: bool)
      requires Binary in files
      modifies this
      ensures ok <==> env.copyStarts && env.copies
      ensures !env.copyStarts ==> files == old(files) && seen == old(seen)
      ensures env.copyStarts ==>
                files == old(files)[Previous := if ok then old(files)[Binary]
                                                else old(files)[Binary][..Cut(old(files), env)]]
      ensures env.copyStarts ==>
                seen == old(seen) + [old(files)[Previous := old(files)[Binary][..Cut(old(files), env)]], files]
    {
      if !env.copyStarts {
        return false;
      }
      var n := Cut(files, env);
      Write(Previous, files[Binary], files[Binary][..n], env.copies);
      return env.copies;
    }

    /** The backup becomes the binary; without a backup, or if it cannot be renamed, nothing happens. */
    method Rollback(renames: bool, removes: bool) returns (ok: bool)
      modifies this
      ensures ok <==> Previous in old(files) && renames
      ensures !ok ==> files == old(files)
      ensures ok ==> Binary in files && files[Binary] == old(files)[Previous] && Previous !in files
      ensures ok && removes ==> Pending !in files
    {
      if Previous !in files {
        return false;
      }
      ok := Rename(Previous, Binary, renames);
      if ok {
        Remove(Pending, removes);
      }
    }
  }

  /** A rollback after a completed update restores exactly the bytes from before; a failed update needs none. */
  method UpdateThenRollback(a: AgentFiles, p: Payload, env: Env, renames: bool, removes: bool)
    returns (status: Status)
    modifies a
    ensures Binary in old(a.files) && (status == Failed || renames) ==>
              Binary in a.files && a.files[Binary] == old(a.files)[Binary]
    ensures status == Restarting && !renames ==>
              Binary in a.files && a.files[Binary] == env.download && Verified(a.hash, a.signed, p, env.download)
  {
    status := a.ExecuteAgentUpdate(p, env);
    if status == Restarting {
      var _ := a.Rollback(renames, removes);
    }
  }

  // ----- runs -----

  /** An update that stops at a phase, by crash, failure or completion; or a rollback. */
  datatype Action = Update(p: Payload, got: Bytes, phase: Phase) | RollBack

  datatype Agent = Agent(binary: Bytes, previous: Option<Bytes>)

  function AgentOf(f: Files): Agent
    requires Binary in f
  {
    Agent(f[Binary], if Previous in f then Some(f[Previous]) else None)
  }

  predicate CanAct(hash: Hash, signed: Signed, a: Agent, act: Action) {
    act.Update? ==>
      && (act.phase.InCopy? ==> act.phase.n <= |a.binary|)
      && (act.phase.Swapped? ==> Verified(hash, signed, act.p, act.got))
  }

  function Next(a: Agent, act: Action): Agent {
    match act
    case Update(_, _, BeforeCopy) => a
    case Update(_, _, InCopy(n)) => a.(previous := Some(if n < |a.binary| then a.binary[..n] else a.binary))
    case Update(_, _, Copied) => a.(previous := Some(a.binary))
    case Update(_, got, Swapped) => Agent(got, Some(a.binary))
    case RollBack => if a.previous.Some? then Agent(a.previous.value, None) else a
  }

  /** Every state `ExecuteAgentUpdate` can leave is one such action. */
  lemma ReachedIsAction(hash: Hash, signed: Signed, f: Files, p: Payload, got: Bytes, s: Files) returns (ph: Phase)
    requires Binary in f && Reached(hash, signed, f, p, got, s)
    ensures Binary in s && CanAct(hash, signed, AgentOf(f), Update(p, got, ph))
    ensures Next(AgentOf(f), Update(p, got, ph)) == AgentOf(s)
  {
    if s == f {
      ph := BeforeCopy;
    } else {
      ph :| AtPhase(f, got, s, ph) && (ph.Swapped? ==> Verified(hash, signed, p, got));
      assert f[Binary][..|f[Binary]|] == f[Binary];
    }
  }

  ghost predicate IsRun(hash: Hash, signed: Signed, s: seq<Agent>, acts: seq<Action>) {
    && |s| == |acts| + 1
    && s[0].previous == None
    && forall i :: 0 <= i < |acts| ==> CanAct(hash, signed, s[i], acts[i]) && s[i + 1] == Next(s[i], acts[i])
  }

  /** The last action that touched the backup was an update that stopped with the copy incomplete. */
  predicate Torn(s: seq<Agent>, acts: seq<Action>, n: nat)
    requires |s| == |acts| + 1 && n <= |acts|
  {
    n > 0 &&
    match acts[n - 1]
    case Update(_, _, BeforeCopy) => Torn(s, acts, n - 1)
    case Update(_, _, InCopy(k)) => k < |s[n - 1].binary|
    case _ => false
  }

  /** The initial binary, or one whose hash and signature passed in some update of the run. */
  ghost predicate Genuine(hash: Hash, signed: Signed, s: seq<Agent>, acts: seq<Action>, n: nat, b: Bytes)
    requires |s| == |acts| + 1 && n <= |acts|
  {
    b == s[0].binary || exists i :: 0 <= i < n && acts[i].Update? && Verified(hash, signed, acts[i].p, b)
  }

  ghost predicate RollsBackTorn(s: seq<Agent>, acts: seq<Action>, i: nat)
    requires |s| == |acts| + 1
  {
    i < |acts| && acts[i].RollBack? && Torn(s, acts, i)
  }

  /** With no rollback onto a torn backup, the binary is genuine in every state, and so is an untorn backup. */
  lemma {:induction false} BinaryAlwaysGenuine(hash: Hash, signed: Signed, s: seq<Agent>, acts: seq<Action>, n: nat)
    requires IsRun(hash, signed, s, acts) && n <= |acts|
    requires forall i: nat :: i < n ==> !RollsBackTorn(s, acts, i)
    ensures Genuine(hash, signed, s, acts, n, s[n].binary)
    ensures s[n].previous.Some? && !Torn(s, acts, n) ==> Genuine(hash, signed, s, acts, n, s[n].previous.value)
  {
    if n > 0 {
      BinaryAlwaysGenuine(hash, signed, s, acts, n - 1);
      assert !RollsBackTorn(s, acts, n - 1);
    }
  }

  /** A torn backup is a proper prefix of some earlier binary. */
  lemma {:induction false} TornIsPrefix(hash: Hash, signed: Signed, s: seq<Agent>, acts: seq<Action>, n: nat)
      returns (i: nat, k: nat)
    requires IsRun(hash, signed, s, acts) && n <= |acts| && Torn(s, acts, n)
    ensures i < n && k < |s[i].binary| && s[n].previous == Some(s[i].binary[..k])
  {
    if acts[n - 1].phase.InCopy? {
      i, k := n - 1, acts[n - 1].phase.n;
    } else {
      i, k := TornIsPrefix(hash, signed, s, acts, n - 1);
    }
  }

  /**
  Where no proper prefix of a binary passes for a whole one, the binary stays
  genuine through the run exactly if no rollback lands on a torn backup.
  */
  lemma GenuineExactly(hash: Hash, signed: Signed, s: seq<Agent>, acts: seq<Action>)
    requires IsRun(hash, signed, s, acts)
    requires forall i, k :: 0 <= i < |s| && 0 <= k < |s[i].binary| ==>
               !Genuine(hash, signed, s, acts, |acts|, s[i].binary[..k])
    ensures (forall n: nat :: n <= |acts| ==> Genuine(hash, signed, s, acts, n, s[n].binary)) <==>
            (forall i: nat :: i < |acts| ==> !RollsBackTorn(s, acts, i))
  {
    if i: nat :| i < |acts| && RollsBackTorn(s, acts, i) {
      var m, k := TornIsPrefix(hash, signed, s, acts, i);
      assert s[i + 1].binary == s[m].binary[..k];
      assert !Genuine(hash, signed, s, acts, |acts|, s[m].binary[..k]);
    } else {
      forall n: nat | n <= |acts| ensures Genuine(hash, signed, s, acts, n, s[n].binary) {
        BinaryAlwaysGenuine(hash, signed, s, acts, n);
      }
    }
  }

  /** A run that breaks it: a crash while copying, then a rollback to an empty file nobody signed. */
  lemma TornRollback(hash: Hash, signed: Signed, p: Payload) returns (s: seq<Agent>, acts: seq<Action>)
    requires !Verified(hash, signed, p, [])
    ensures IsRun(hash, signed, s, acts) && |acts| == 2 && RollsBackTorn(s, acts, 1)
    ensures !Genuine(hash, signed, s, acts, 2, s[2].binary)
  {
    acts := [Update(p, [], InCopy(0)), RollBack];
    var a := Agent([1], None);
    s := [a, Next(a, acts[0]), Next(Next(a, acts[0]), acts[1])];
    assert s[2].binary == [];
  }
}
