/** No Put leaves its temporary file behind, however it fails and whatever else goes on. */
module TempFiles {
  import opened Content
  import opened Paths
  import opened FileTree
  import opened LocalProtocol

  /** Past os.Create and not yet cleaned up. */
  predicate HoldsTemp(put: Put) {
    Writing(put) || put.pc.Cleaning?
  }

  predicate Succeeded(put: Put) {
    (put.pc.Cleaning? || put.pc.Finished?) && put.pc.result.Stored?
  }

  ghost predicate InUse(puts: map<nat, Put>, p: Path) {
    exists i | i in puts :: HoldsTemp(puts[i]) && puts[i].temp == p
  }

  ghost predicate Placed(puts: map<nat, Put>, p: Path) {
    exists i | i in puts :: Succeeded(puts[i]) && puts[i].path == p
  }

  /** Every file was there before, is the temporary file of a Put at work, or was put there. */
  ghost predicate Explained(s: State, before: set<Path>) {
    forall p | p in s.fs.files :: p in before || InUse(s.puts, p) || Placed(s.puts, p)
  }

  /** Files that an action of a Put makes, and the one that it takes away at its end. */
  lemma ActionOnFiles(cfg: Config, fs: Fs, put: Put, action: Action, p: Path)
    requires p in PutNext(cfg, fs, put, action).0.files
    ensures var put' := put.(pc := PutNext(cfg, fs, put, action).1);
            && (p in fs.files || (HoldsTemp(put') && put.temp == p) || (Succeeded(put') && put.path == p))
            && (HoldsTemp(put) && put.temp == p ==> HoldsTemp(put') || (Succeeded(put') && put.path == p))
            && (Succeeded(put) ==> Succeeded(put'))
  {
    match action
    case MakeDir =>
    case CreateTemp =>
    case Copy(_) =>
    case Verify =>
    case Fail =>
    case Commit =>
    case CleanUp =>
  }

  lemma MoveIsExplained(s: State, before: set<Path>, id: nat, r: (Fs, PutPc), p: Path)
    requires id in s.puts && p in r.0.files
    requires p in s.fs.files ==> p in before || InUse(s.puts, p) || Placed(s.puts, p)
    requires var put, put' := s.puts[id], s.puts[id].(pc := r.1);
             && (p in s.fs.files || (HoldsTemp(put') && put.temp == p) || (Succeeded(put') && put.path == p))
             && (HoldsTemp(put) && put.temp == p ==> HoldsTemp(put') || (Succeeded(put') && put.path == p))
             && (Succeeded(put) ==> Succeeded(put'))
    ensures var puts := Moved(s, id, r).puts; p in before || InUse(puts, p) || Placed(puts, p)
  {
    var puts := Moved(s, id, r).puts;
    assert id in puts;
    if i :| i in s.puts && HoldsTemp(s.puts[i]) && s.puts[i].temp == p { assert i in puts; }
    if i :| i in s.puts && Succeeded(s.puts[i]) && s.puts[i].path == p { assert i in puts; }
  }

  lemma PutStepKeepsExplained(cfg: Config, s: State, before: set<Path>, id: nat, action: Action)
    requires Explained(s, before) && id in s.puts
    ensures Explained(Moved(s, id, PutNext(cfg, s.fs, s.puts[id], action)), before)
  {
    var r := PutNext(cfg, s.fs, s.puts[id], action);
    forall p | p in r.0.files
      ensures p in before || InUse(Moved(s, id, r).puts, p) || Placed(Moved(s, id, r).puts, p)
    {
      ActionOnFiles(cfg, s.fs, s.puts[id], action, p);
      MoveIsExplained(s, before, id, r, p);
    }
  }

  lemma BeginKeepsExplained(s: State, before: set<Path>, id: nat, put: Put)
    requires Explained(s, before) && id !in s.puts
    ensures Explained(s.(puts := s.puts[id := put]), before)
  {
    var puts := s.puts[id := put];
    forall p | p in s.fs.files
      ensures p in before || InUse(puts, p) || Placed(puts, p)
    {
      if i :| i in s.puts && HoldsTemp(s.puts[i]) && s.puts[i].temp == p { assert i in puts; }
      if i :| i in s.puts && Succeeded(s.puts[i]) && s.puts[i].path == p { assert i in puts; }
    }
  }

  lemma NextKeepsExplained(cfg: Config, s: State, before: set<Path>, step: Step)
    requires Explained(s, before)
    ensures Explained(Next(cfg, s, step), before)
  {
    if Next(cfg, s, step) == s { return; }
    match step
    case BeginPut(id, ref, source, size, stamp) =>
      BeginKeepsExplained(s, before, id, Start(cfg, ref, source, size, stamp));
    case PutStep(id, action) => PutStepKeepsExplained(cfg, s, before, id, action);
    case Open(_, _) =>
    case Read(_, _) =>
    case BeginDelete(_, _) =>
    case DeleteStep(id) => assert Remove(s.fs, DeleteTarget(s.deletes[id])).0.files.Keys <= s.fs.files.Keys;
  }

  lemma {:induction false} RunKeepsExplained(cfg: Config, s: State, before: set<Path>, steps: seq<Step>)
    requires Explained(s, before)
    ensures Explained(Run(cfg, s, steps), before)
    decreases |steps|
  {
    if steps != [] {
      NextKeepsExplained(cfg, s, before, steps[0]);
      RunKeepsExplained(cfg, Next(cfg, s, steps[0]), before, steps[1..]);
    }
  }

  /** In every run, for all references and schedules: once no Put is at work, every file was there
      at the beginning or is at the path of a Put that succeeded. Failed Puts have left nothing. */
  lemma NoPutLeavesItsTemp(cfg: Config, s: State, steps: seq<Step>)
    requires s.puts == map[]
    ensures var t := Run(cfg, s, steps);
            && Explained(t, s.fs.files.Keys)
            && ((forall i | i in t.puts :: t.puts[i].pc.Finished?) ==>
                  forall p | p in t.fs.files :: p in s.fs.files || Placed(t.puts, p))
  {
    RunKeepsExplained(cfg, s, s.fs.files.Keys, steps);
  }
}
