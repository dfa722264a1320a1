/**
 `doctor`: its flag grammar, the exclusions between its commands, and the dispatcher that relies on them.
 */
module Doctor {
  import opened Bytes
  import opened Text

  datatype Flag =
    | RepairWalTail | RepairMainRef | RepairIndex | RepairPointerTail | RepairTails | RebuildPointerIndex
    | DiscardDamaged | RestoreQueueTarget | NotCurrentBranch | PlanOnly | RecoveryList | RecoveryClear

  datatype ValueFlag = Ref | RecoveryRestore | CancelImport

  function FlagOf(token: string): Option<Flag> {
    if token == "--repair-wal-tail" then Some(RepairWalTail)
    else if token == "--repair-main-ref" then Some(RepairMainRef)
    else if token == "--repair-index" then Some(RepairIndex)
    else if token == "--repair-pointer-index-tail" then Some(RepairPointerTail)
    else if token == "--repair-tails" then Some(RepairTails)
    else if token == "--rebuild-pointer-index" then Some(RebuildPointerIndex)
    else if token == "--discard-damaged-commits" then Some(DiscardDamaged)
    else if token == "--restore-queue-target" then Some(RestoreQueueTarget)
    else if token == "--not-current-branch" then Some(NotCurrentBranch)
    else if token == "--plan-only" then Some(PlanOnly)
    else if token == "--recovery-list" then Some(RecoveryList)
    else if token == "--recovery-clear" then Some(RecoveryClear)
    else None
  }

  function ValueFlagOf(token: string): Option<ValueFlag> {
    if token == "--ref" then Some(Ref)
    else if token == "--recovery-restore" then Some(RecoveryRestore)
    else if token == "--cancel-import" then Some(CancelImport)
    else None
  }

  // ----- one group at a time -----

  /** A flag, a flag with its value, or the repository path. */
  datatype Group = Switch(flag: Flag) | Valued(name: ValueFlag, value: string) | Positional(path: string)

  /** The groups of an argument list; None when it cannot be read as groups. */
  function Lex(args: seq<string>): Option<seq<Group>> {
    if args == [] then Some([])
    else if FlagOf(args[0]).Some? then After(Switch(FlagOf(args[0]).value), Lex(args[1..]))
    else if ValueFlagOf(args[0]).Some? then
      var name := ValueFlagOf(args[0]).value;
      if |args| == 1 || (name == Ref && Blank(args[1])) then None
      else After(Valued(name, args[1]), Lex(args[2..]))
    else if args[0] != "" && args[0][0] == '-' then None
    else After(Positional(args[0]), Lex(args[1..]))
  }

  function After(g: Group, rest: Option<seq<Group>>): Option<seq<Group>> {
    if rest.None? then None else Some([g] + rest.value)
  }

  /** What has been seen so far. */
  datatype Seen = Seen(flags: set<Flag>, values: map<ValueFlag, string>, path: Option<string>)

  const NOTHING := Seen({}, map[], None)

  /** One group, refused when it is a repetition (`mark_seen`, `set_once`, the one path). */
  function Absorb(s: Seen, g: Group): Option<Seen> {
    match g
    case Switch(f) => if f in s.flags then None else Some(s.(flags := s.flags + {f}))
    case Valued(n, x) => if n in s.values then None else Some(s.(values := s.values[n := x]))
    case Positional(p) => if s.path.Some? then None else Some(s.(path := Some(p)))
  }

  function AbsorbAll(groups: seq<Group>): Option<Seen> {
    if groups == [] then Some(NOTHING)
    else
      var s := AbsorbAll(groups[..|groups| - 1]);
      if s.None? then None else Absorb(s.value, groups[|groups| - 1])
  }

  /** How often `s` says a group occurred. */
  function Times(s: Seen, g: Group): nat {
    match g
    case Switch(f) => if f in s.flags then 1 else 0
    case Valued(n, x) => if n in s.values && s.values[n] == x then 1 else 0
    case Positional(p) => if s.path == Some(p) then 1 else 0
  }

  ghost predicate Tallies(s: Seen, m: multiset<Group>) {
    forall g :: m[g] == Times(s, g)
  }

  lemma AbsorbTallies(s: Seen, g: Group, m: multiset<Group>)
    requires Tallies(s, m)
    ensures Absorb(s, g).Some? ==> Tallies(Absorb(s, g).value, m + multiset{g})
  {
  }

  /** What was seen, less one group. */
  function Remove(s: Seen, g: Group): Seen {
    match g
    case Switch(f) => s.(flags := s.flags - {f})
    case Valued(n, _) => s.(values := s.values - {n})
    case Positional(_) => s.(path := None)
  }

  lemma RemoveTallies(s: Seen, g: Group, m: multiset<Group>)
    requires Tallies(s, m) && g in m
    ensures Tallies(Remove(s, g), m - multiset{g}) && Absorb(Remove(s, g), g) == Some(s)
  {
    forall h ensures (m - multiset{g})[h] == Times(Remove(s, g), h) {
      assert m[h] == Times(s, h) && m[g] == Times(s, g);
    }
    assert m[g] == Times(s, g);
    match g {
      case Switch(f) => assert s.flags - {f} + {f} == s.flags;
      case Valued(n, x) => assert (s.values - {n})[n := x] == s.values;
      case Positional(p) =>
    }
  }

  /** The fold over groups means exactly the tally of their multiset. */
  lemma {:induction false} AbsorbAllTallies(groups: seq<Group>, s: Seen)
    ensures AbsorbAll(groups) == Some(s) <==> Tallies(s, multiset(groups))
    decreases |groups|
  {
    if groups == [] {
      if Tallies(s, multiset(groups)) { TallyUnique(s, NOTHING, multiset(groups)); }
    } else {
      var front, g := groups[..|groups| - 1], groups[|groups| - 1];
      assert groups == front + [g];
      assert multiset(groups) == multiset(front) + multiset{g};
      if AbsorbAll(groups) == Some(s) {
        AbsorbAllTallies(front, AbsorbAll(front).value);
        AbsorbTallies(AbsorbAll(front).value, g, multiset(front));
      }
      if Tallies(s, multiset(groups)) {
        RemoveTallies(s, g, multiset(groups));
        assert multiset(groups) - multiset{g} == multiset(front);
        AbsorbAllTallies(front, Remove(s, g));
      }
    }
  }

  lemma TallyUnique(s: Seen, t: Seen, m: multiset<Group>)
    requires Tallies(s, m) && Tallies(t, m)
    ensures s == t
  {
    forall f ensures f in s.flags <==> f in t.flags {
      assert m[Switch(f)] == Times(s, Switch(f)) == Times(t, Switch(f));
    }
    forall n ensures n in s.values <==> n in t.values {
      if n in s.values { assert m[Valued(n, s.values[n])] == Times(t, Valued(n, s.values[n])); }
      if n in t.values { assert m[Valued(n, t.values[n])] == Times(s, Valued(n, t.values[n])); }
    }
    forall n | n in s.values ensures s.values[n] == t.values[n] {
      assert m[Valued(n, s.values[n])] == Times(t, Valued(n, s.values[n]));
    }
    if s.path.Some? { assert m[Positional(s.path.value)] == Times(t, Positional(s.path.value)); }
    if t.path.Some? { assert m[Positional(t.path.value)] == Times(s, Positional(t.path.value)); }
    assert s.flags == t.flags && s.values == t.values;
  }

  /** Acceptance and result depend only on which groups there are, not on their order. */
  lemma OrderIrrelevant(a: seq<Group>, b: seq<Group>)
    requires multiset(a) == multiset(b)
    ensures AbsorbAll(a) == AbsorbAll(b)
  {
    if AbsorbAll(a).Some? {
      AbsorbAllTallies(a, AbsorbAll(a).value);
      AbsorbAllTallies(b, AbsorbAll(a).value);
    } else if AbsorbAll(b).Some? {
      AbsorbAllTallies(b, AbsorbAll(b).value);
      AbsorbAllTallies(a, AbsorbAll(b).value);
    }
  }

  // ----- the exclusions -----

  datatype Recovery = List | Restore(id: string) | Clear

  datatype DoctorArgs = DoctorArgs(
    root: Option<string>, repairWalTail: bool, repairMainRef: bool, repairIndex: bool, repairPointerTail: bool,
    repairTails: bool, rebuildPointerIndex: bool, discardDamaged: bool, restoreQueueTargetRef: Option<string>,
    notCurrentBranch: bool, recovery: Option<Recovery>, cancelImport: Option<string>, planOnly: bool)

  function Value(s: Seen, n: ValueFlag): Option<string> {
    if n in s.values then Some(s.values[n]) else None
  }

  const PLAIN_REPAIRS := {RepairWalTail, RepairMainRef, RepairIndex, RepairPointerTail}

  /** The chain of checks at the end of `parse_doctor_args`, in its order. */
  predicate Permitted(s: Seen) {
    var plain := s.flags * PLAIN_REPAIRS != {};
    var restoreQueue := RestoreQueueTarget in s.flags;
    var repairs := plain || RepairTails in s.flags || RebuildPointerIndex in s.flags || DiscardDamaged in s.flags
                   || restoreQueue;
    var recoveries := (if RecoveryList in s.flags then 1 else 0) + (if RecoveryClear in s.flags then 1 else 0)
                      + (if RecoveryRestore in s.values then 1 else 0);
    && !(RepairTails in s.flags
         && (plain || RebuildPointerIndex in s.flags || DiscardDamaged in s.flags || restoreQueue))
    && !(RebuildPointerIndex in s.flags && (plain || DiscardDamaged in s.flags || restoreQueue))
    && !(DiscardDamaged in s.flags && (plain || restoreQueue))
    && !(restoreQueue && plain)
    && (Ref in s.values <==> restoreQueue)
    && !(NotCurrentBranch in s.flags && !restoreQueue)
    && recoveries <= 1
    && !(recoveries == 1 && (repairs || NotCurrentBranch in s.flags || Ref in s.values || CancelImport in s.values))
    && !(CancelImport in s.values && (repairs || NotCurrentBranch in s.flags || Ref in s.values))
    && !(PlanOnly in s.flags && RecoveryList in s.flags)
    && !(PlanOnly in s.flags && RebuildPointerIndex !in s.flags && DiscardDamaged !in s.flags && !restoreQueue
         && RepairTails !in s.flags && RecoveryRestore !in s.values && RecoveryClear !in s.flags
         && CancelImport !in s.values)
  }

  function Build(s: Seen): DoctorArgs {
    DoctorArgs(
      s.path, RepairWalTail in s.flags, RepairMainRef in s.flags, RepairIndex in s.flags, RepairPointerTail in s.flags,
      RepairTails in s.flags, RebuildPointerIndex in s.flags, DiscardDamaged in s.flags, Value(s, Ref),
      NotCurrentBranch in s.flags,
      if RecoveryList in s.flags then Some(List)
      else if RecoveryRestore in s.values then Some(Restore(s.values[RecoveryRestore]))
      else if RecoveryClear in s.flags then Some(Clear) else None,
      Value(s, CancelImport), PlanOnly in s.flags)
  }

  /** What an argument list means: None is a usage error. */
  function Meaning(args: seq<string>): Option<DoctorArgs> {
    var groups := Lex(args);
    var seen := if groups.None? then None else AbsorbAll(groups.value);
    if seen.None? || !Permitted(seen.value) then None else Some(Build(seen.value))
  }

  /** Argument lists with the same groups, in any order, mean the same. */
  lemma MeaningIgnoresOrder(a: seq<string>, b: seq<string>)
    requires Lex(a).Some? && Lex(b).Some? && multiset(Lex(a).value) == multiset(Lex(b).value)
    ensures Meaning(a) == Meaning(b)
  {
    OrderIrrelevant(Lex(a).value, Lex(b).value);
  }

  lemma {:induction false} RefusedStaysRefused(done: seq<Group>, rest: seq<Group>)
    requires AbsorbAll(done).None?
    ensures AbsorbAll(done + rest).None?
    decreases |rest|
  {
    if rest == [] {
      assert done + rest == done;
    } else {
      var all := done + rest;
      assert all[..|all| - 1] == done + rest[..|rest| - 1];
      RefusedStaysRefused(done, rest[..|rest| - 1]);
    }
  }

  /** What the loop of `parse_doctor_args` still has to do, given the groups already absorbed. */
  ghost predicate Ahead(args: seq<string>, done: seq<Group>, rest: seq<string>) {
    Lex(args) == if Lex(rest).None? then None else Some(done + Lex(rest).value)
  }

  lemma AheadStep(args: seq<string>, done: seq<Group>, g: Group, rest: seq<string>, next: seq<string>)
    requires Ahead(args, done, rest) && Lex(rest) == After(g, Lex(next))
    ensures Ahead(args, done + [g], next)
  {
    if Lex(next).Some? {
      assert done + ([g] + Lex(next).value) == (done + [g]) + Lex(next).value;
    }
  }

  /** The loop of `parse_doctor_args`, over mutable flags. */
  method Scan(args: seq<string>) returns (r: Option<Seen>)
    ensures r == if Lex(args).None? then None else AbsorbAll(Lex(args).value)
  {
    var seen := NOTHING;
    var i := 0;
    ghost var done: seq<Group> := [];
    assert args[0..] == args;
    if Lex(args).Some? { assert [] + Lex(args).value == Lex(args).value; }
    while i < |args|
      invariant 0 <= i <= |args|
      invariant AbsorbAll(done) == Some(seen) && Ahead(args, done, args[i..])
    {
      var token := args[i];
      var rest := args[i..];
      var g: Group;
      var width := 1;
      if FlagOf(token).Some? {
        g := Switch(FlagOf(token).value);
      } else if ValueFlagOf(token).Some? {
        if i + 1 == |args| || (token == "--ref" && Blank(args[i + 1])) {
          return None;
        }
        g, width := Valued(ValueFlagOf(token).value, args[i + 1]), 2;
      } else if token != "" && token[0] == '-' {
        return None;
      } else {
        g := Positional(token);
      }
      assert rest[width..] == args[i + width..];
      AheadStep(args, done, g, rest, args[i + width..]);
      var next := Absorb(seen, g);
      assert (done + [g])[..|done|] == done;
      if next.None? {
        if Lex(args).Some? { RefusedStaysRefused(done + [g], Lex(args[i + width..]).value); }
        return None;
      }
      seen, done, i := next.value, done + [g], i + width;
    }
    assert args[i..] == [] && done + [] == done;
    r := Some(seen);
  }

  /** `parse_doctor_args` */
  method ParseDoctorArgs(args: seq<string>) returns (r: Option<DoctorArgs>)
    ensures r == Meaning(args)
    ensures r.Some? <==> Legible(args) && Unrepeated(args) && Compatible(args)
  {
    AcceptedExactly(args);
    var seen := Scan(args);
    if seen.None? || !Permitted(seen.value) {
      return None;
    }
    r := Some(Build(seen.value));
  }

  // ----- what an argument list says, token by token -----

  predicate TakesValue(token: string) {
    token in {"--ref", "--recovery-restore", "--cancel-import"}
  }

  /** Whether the token at `i` is the value of the one before it. */
  predicate ValueAt(args: seq<string>, i: nat)
    requires i < |args|
  {
    i > 0 && TakesValue(args[i - 1]) && !ValueAt(args, i - 1)
  }

  /** A group starts at `i`. */
  predicate Starts(args: seq<string>, i: int) {
    0 <= i < |args| && !ValueAt(args, i)
  }

  /** The flag is there, and not as the value of another one. */
  ghost predicate Given(args: seq<string>, flag: string) {
    exists i :: Starts(args, i) && args[i] == flag
  }

  /** The flag is there with this value. */
  ghost predicate GivenAs(args: seq<string>, flag: string, value: string) {
    exists i :: Starts(args, i) && args[i] == flag && i + 1 < |args| && args[i + 1] == value
  }

  predicate IsPath(token: string) {
    token == "" || token[0] != '-'
  }

  /** The tokens of the switches. */
  const SWITCHES := {
    "--repair-wal-tail", "--repair-main-ref", "--repair-index", "--repair-pointer-index-tail", "--repair-tails",
    "--rebuild-pointer-index", "--discard-damaged-commits", "--restore-queue-target", "--not-current-branch",
    "--plan-only", "--recovery-list", "--recovery-clear"}

  /** Every group is a switch, a flag with a value that may be taken, or a path. */
  ghost predicate Legible(args: seq<string>) {
    forall i :: Starts(args, i) ==> LegibleAt(args, i)
  }

  predicate LegibleAt(args: seq<string>, i: nat)
    requires i < |args|
  {
    || args[i] in SWITCHES || IsPath(args[i])
    || (TakesValue(args[i]) && i + 1 < |args| && !(args[i] == "--ref" && Blank(args[i + 1])))
  }

  /** No flag is given twice, and there is at most one path. */
  ghost predicate Unrepeated(args: seq<string>) {
    forall i, j :: Starts(args, i) && Starts(args, j) && i < j ==> !Repetition(args[i], args[j])
  }

  predicate Repetition(a: string, b: string) {
    a == b || (IsPath(a) && IsPath(b))
  }

  /** The commands that are run alone. */
  const ALONE := [
    "--recovery-list", "--recovery-clear", "--recovery-restore", "--cancel-import", "--repair-tails",
    "--rebuild-pointer-index", "--discard-damaged-commits", "--restore-queue-target"]

  const PLAIN := ["--repair-wal-tail", "--repair-main-ref", "--repair-index", "--repair-pointer-index-tail"]

  /**
   At most one command that is run alone, none of them beside a plain repair; what belongs to
   `--restore-queue-target` comes with it; and a plan is of such a command, but not of a listing.
   */
  ghost predicate Compatible(args: seq<string>) {
    && (forall i, j :: 0 <= i < j < |ALONE| ==> !(Given(args, ALONE[i]) && Given(args, ALONE[j])))
    && (forall i, j :: 0 <= i < |ALONE| && 0 <= j < |PLAIN| ==> !(Given(args, ALONE[i]) && Given(args, PLAIN[j])))
    && (Given(args, "--ref") <==> Given(args, "--restore-queue-target"))
    && (Given(args, "--not-current-branch") ==> Given(args, "--restore-queue-target"))
    && (Given(args, "--plan-only") ==> exists i :: 1 <= i < |ALONE| && Given(args, ALONE[i]))
  }

  /** The group that starts at `i`. */
  function GroupAt(args: seq<string>, i: nat): Group
    requires i < |args|
  {
    if FlagOf(args[i]).Some? then Switch(FlagOf(args[i]).value)
    else if ValueFlagOf(args[i]).Some? then
      Valued(ValueFlagOf(args[i]).value, if i + 1 < |args| then args[i + 1] else "")
    else Positional(args[i])
  }

  ghost predicate Readable(args: seq<string>, i: nat)
    requires i < |args|
  {
    || FlagOf(args[i]).Some?
    || (if ValueFlagOf(args[i]).Some?
        then i + 1 < |args| && !(ValueFlagOf(args[i]) == Some(Ref) && Blank(args[i + 1]))
        else IsPath(args[i]))
  }

  /** How many tokens the first group takes. */
  function Width(args: seq<string>): nat
    requires args != []
  {
    if TakesValue(args[0]) && |args| > 1 then 2 else 1
  }

  lemma FlagTexts(token: string)
    ensures FlagOf(token).Some? <==> token in SWITCHES
    ensures ValueFlagOf(token).Some? <==> TakesValue(token)
    ensures ValueFlagOf(token) == Some(Ref) <==> token == "--ref"
    ensures FlagOf(token).Some? || ValueFlagOf(token).Some? ==> !IsPath(token)
  {
  }

  /** A list is its first group and the rest. */
  lemma {:induction false} StartsShift(args: seq<string>, i: nat)
    requires args != []
    ensures Starts(args, Width(args) + i) <==> Starts(args[Width(args)..], i)
    ensures Width(args) + i < |args| ==> GroupAt(args, Width(args) + i) == GroupAt(args[Width(args)..], i)
    ensures Width(args) + i < |args| ==> (Readable(args, Width(args) + i) <==> Readable(args[Width(args)..], i))
  {
    var k := Width(args);
    if k + i < |args| {
      assert args[k..][i] == args[k + i];
      if i == 0 {
        assert !ValueAt(args, 0) && !ValueAt(args[k..], 0);
        assert k == 2 ==> ValueAt(args, 1);
      } else {
        StartsShift(args, i - 1);
        assert args[k..][i - 1] == args[k + i - 1];
      }
    }
  }

  lemma FirstStarts(args: seq<string>, i: nat)
    requires args != [] && i < Width(args)
    ensures Starts(args, i) <==> i == 0
  {
    assert !ValueAt(args, 0);
  }

  lemma LexHead(args: seq<string>)
    requires args != []
    ensures Lex(args) == if Readable(args, 0) then After(GroupAt(args, 0), Lex(args[Width(args)..])) else None
  {
    FlagTexts(args[0]);
  }

  ghost predicate AllReadable(args: seq<string>) {
    forall i :: Starts(args, i) ==> Readable(args, i)
  }

  lemma AllReadableSplit(args: seq<string>)
    requires args != []
    ensures AllReadable(args) <==> Readable(args, 0) && AllReadable(args[Width(args)..])
  {
    hide Readable;
    var k := Width(args);
    FirstStarts(args, 0);
    forall i | Starts(args, i) && i > 0 ensures i >= k && Starts(args[k..], i - k) {
      if i < k { FirstStarts(args, i); }
      StartsShift(args, i - k);
    }
    forall i | Starts(args[k..], i)
      ensures Starts(args, k + i) && (Readable(args, k + i) <==> Readable(args[k..], i))
    {
      StartsShift(args, i);
    }
    if AllReadable(args[k..]) && Readable(args, 0) {
      forall i | Starts(args, i) ensures Readable(args, i) {
        if i > 0 { StartsShift(args, i - k); }
      }
    }
  }

  lemma {:induction false} LexExactly(args: seq<string>)
    ensures Lex(args).Some? <==> AllReadable(args)
    decreases |args|
  {
    if args != [] {
      LexHead(args);
      AllReadableSplit(args);
      LexExactly(args[Width(args)..]);
    }
  }

  ghost predicate Occurs(args: seq<string>, g: Group) {
    exists i :: Starts(args, i) && GroupAt(args, i) == g
  }

  lemma OccursSplit(args: seq<string>, g: Group)
    requires args != []
    ensures Occurs(args, g) <==> g == GroupAt(args, 0) || Occurs(args[Width(args)..], g)
  {
    hide GroupAt, ValueAt, Readable;
    var k := Width(args);
    FirstStarts(args, 0);
    if i :| Starts(args, i) && GroupAt(args, i) == g {
      if i > 0 {
        if i < k { FirstStarts(args, i); }
        StartsShift(args, i - k);
      }
    }
    if i :| Starts(args[k..], i) && GroupAt(args[k..], i) == g {
      StartsShift(args, i);
    }
  }

  /** The groups that are read are those that start somewhere. */
  lemma {:induction false} LexOccurs(args: seq<string>, g: Group)
    requires Lex(args).Some?
    ensures g in Lex(args).value <==> Occurs(args, g)
    decreases |args|
  {
    if args != [] {
      LexHead(args);
      OccursSplit(args, g);
      LexOccurs(args[Width(args)..], g);
    }
  }

  /** Two groups that may not both be there. */
  predicate Clash(g: Group, h: Group) {
    match (g, h)
    case (Switch(a), Switch(b)) => a == b
    case (Valued(a, _), Valued(b, _)) => a == b
    case (Positional(_), Positional(_)) => true
    case _ => false
  }

  ghost predicate Clashes(groups: seq<Group>) {
    exists i, j :: 0 <= i < j < |groups| && Clash(groups[i], groups[j])
  }

  /** Groups are absorbed exactly when no two of them clash. */
  lemma {:induction false} AbsorbAllExactly(groups: seq<Group>)
    ensures AbsorbAll(groups).Some? <==> !Clashes(groups)
    decreases |groups|
  {
    if groups != [] {
      var front, g := groups[..|groups| - 1], groups[|groups| - 1];
      AbsorbAllExactly(front);
      ClashesLast(groups);
      if AbsorbAll(front).Some? {
        AbsorbExactly(front, AbsorbAll(front).value, g);
      }
    }
  }

  lemma ClashesLast(groups: seq<Group>)
    requires groups != []
    ensures var front, g := groups[..|groups| - 1], groups[|groups| - 1];
      Clashes(groups) <==> Clashes(front) || exists i :: 0 <= i < |front| && Clash(front[i], g)
  {
    var front, g := groups[..|groups| - 1], groups[|groups| - 1];
    if i, j :| 0 <= i < j < |groups| && Clash(groups[i], groups[j]) {
      if j < |front| {
        assert Clash(front[i], front[j]);
      } else {
        assert Clash(front[i], g);
      }
    }
    if i, j :| 0 <= i < j < |front| && Clash(front[i], front[j]) {
      assert Clash(groups[i], groups[j]);
    }
    if i :| 0 <= i < |front| && Clash(front[i], g) {
      assert Clash(groups[i], groups[|front|]);
    }
  }

  lemma AbsorbExactly(front: seq<Group>, s: Seen, g: Group)
    requires AbsorbAll(front) == Some(s)
    ensures Absorb(s, g).Some? <==> !exists i :: 0 <= i < |front| && Clash(front[i], g)
  {
    if i :| 0 <= i < |front| && Clash(front[i], g) {
      SeenExactly(front, s, front[i]);
    }
    if Absorb(s, g).None? {
      var h := match g
        case Switch(_) => g
        case Valued(n, _) => Valued(n, s.values[n])
        case Positional(_) => Positional(s.path.value);
      SeenExactly(front, s, h);
      var i :| 0 <= i < |front| && front[i] == h;
    }
  }

  /** What was seen is what is among the groups. */
  lemma SeenExactly(groups: seq<Group>, s: Seen, g: Group)
    requires AbsorbAll(groups) == Some(s)
    ensures g in groups <==> Times(s, g) == 1
  {
    AbsorbAllTallies(groups, s);
    assert multiset(groups)[g] == Times(s, g);
    assert g in groups <==> g in multiset(groups);
  }

  ghost predicate ClashAt(args: seq<string>, i: int, j: int) {
    Starts(args, i) && Starts(args, j) && i < j && Clash(GroupAt(args, i), GroupAt(args, j))
  }

  ghost predicate AnyClash(args: seq<string>) {
    exists i: int, j: int :: ClashAt(args, i, j)
  }

  lemma AnyClashSplit(args: seq<string>)
    requires args != []
    ensures var rest := args[Width(args)..];
      AnyClash(args) <==> AnyClash(rest) || exists h :: Occurs(rest, h) && Clash(GroupAt(args, 0), h)
  {
    hide Clash, GroupAt, ValueAt, Readable, ClashAt;
    var k := Width(args);
    var rest := args[k..];
    FirstStarts(args, 0);
    if i: int, j: int :| ClashAt(args, i, j) {
      ClashHere(args, i, j);
      if i == 0 {
        assert Occurs(rest, GroupAt(rest, j - k));
      } else {
        assert ClashAt(rest, i - k, j - k);
      }
    }
    if i: int, j: int :| ClashAt(rest, i, j) {
      ClashThere(args, i, j);
    }
    if h :| Occurs(rest, h) && Clash(GroupAt(args, 0), h) {
      var j :| Starts(rest, j) && GroupAt(rest, j) == h;
      StartsShift(args, j);
      assert ClashAt(args, 0, k + j) by { ClashMeans(args, 0, k + j); }
    }
  }

  lemma ClashMeans(args: seq<string>, i: int, j: int)
    ensures ClashAt(args, i, j) <==>
              Starts(args, i) && Starts(args, j) && i < j && Clash(GroupAt(args, i), GroupAt(args, j))
  {
  }

  /** Two groups that clash are the first one and one of the rest, or both of the rest. */
  lemma ClashHere(args: seq<string>, i: int, j: int)
    requires args != [] && ClashAt(args, i, j)
    ensures var k := Width(args);
      var rest := args[k..];
      && Starts(rest, j - k)
      && if i == 0 then Clash(GroupAt(args, 0), GroupAt(rest, j - k)) else ClashAt(rest, i - k, j - k)
  {
    hide Clash, GroupAt, ValueAt, Readable;
    var k := Width(args);
    if j < k { FirstStarts(args, j); }
    StartsShift(args, j - k);
    if i > 0 {
      if i < k { FirstStarts(args, i); }
      StartsShift(args, i - k);
    }
  }

  lemma ClashThere(args: seq<string>, i: int, j: int)
    requires args != [] && ClashAt(args[Width(args)..], i, j)
    ensures ClashAt(args, Width(args) + i, Width(args) + j)
  {
    hide Clash, GroupAt, ValueAt, Readable;
    StartsShift(args, i);
    StartsShift(args, j);
  }

  lemma ClashesFirst(g: Group, rest: seq<Group>)
    ensures Clashes([g] + rest) <==> Clashes(rest) || exists h :: h in rest && Clash(g, h)
  {
    var all := [g] + rest;
    if i, j :| 0 <= i < j < |all| && Clash(all[i], all[j]) {
      assert all[j] == rest[j - 1];
      if i > 0 {
        assert Clash(rest[i - 1], rest[j - 1]);
      }
    }
    if i, j :| 0 <= i < j < |rest| && Clash(rest[i], rest[j]) {
      assert Clash(all[i + 1], all[j + 1]);
    }
    if h :| h in rest && Clash(g, h) {
      var j :| 0 <= j < |rest| && rest[j] == h;
      assert Clash(all[0], all[j + 1]);
    }
  }

  lemma {:induction false} ClashesExactly(args: seq<string>)
    requires Lex(args).Some?
    ensures Clashes(Lex(args).value) <==> AnyClash(args)
    decreases |args|
  {
    if args != [] {
      var rest := args[Width(args)..];
      LexHead(args);
      AnyClashSplit(args);
      ClashesExactly(rest);
      ClashesFirst(GroupAt(args, 0), Lex(rest).value);
      forall h ensures h in Lex(rest).value <==> Occurs(rest, h) {
        LexOccurs(rest, h);
      }
    }
  }

  function SwitchText(f: Flag): string {
    match f
    case RepairWalTail => "--repair-wal-tail"
    case RepairMainRef => "--repair-main-ref"
    case RepairIndex => "--repair-index"
    case RepairPointerTail => "--repair-pointer-index-tail"
    case RepairTails => "--repair-tails"
    case RebuildPointerIndex => "--rebuild-pointer-index"
    case DiscardDamaged => "--discard-damaged-commits"
    case RestoreQueueTarget => "--restore-queue-target"
    case NotCurrentBranch => "--not-current-branch"
    case PlanOnly => "--plan-only"
    case RecoveryList => "--recovery-list"
    case RecoveryClear => "--recovery-clear"
  }

  function ValuedText(n: ValueFlag): string {
    match n case Ref => "--ref" case RecoveryRestore => "--recovery-restore" case CancelImport => "--cancel-import"
  }

  lemma SwitchTexts(token: string, f: Flag)
    ensures FlagOf(token) == Some(f) <==> token == SwitchText(f)
  {
    hide SwitchText, FlagOf;
    SwitchRead(f);
    if FlagOf(token) == Some(f) {
      SwitchOnly(token, f);
    }
  }

  lemma SwitchRead(f: Flag)
    ensures FlagOf(SwitchText(f)) == Some(f)
  {
  }

  lemma SwitchOnly(token: string, f: Flag)
    requires FlagOf(token) == Some(f)
    ensures token == SwitchText(f)
  {
    match f {
      case RepairWalTail => assert token == "--repair-wal-tail";
      case RepairMainRef => assert token == "--repair-main-ref";
      case RepairIndex => assert token == "--repair-index";
      case RepairPointerTail => assert token == "--repair-pointer-index-tail";
      case RepairTails => assert token == "--repair-tails";
      case RebuildPointerIndex => assert token == "--rebuild-pointer-index";
      case DiscardDamaged => assert token == "--discard-damaged-commits";
      case RestoreQueueTarget => assert token == "--restore-queue-target";
      case NotCurrentBranch => assert token == "--not-current-branch";
      case PlanOnly => assert token == "--plan-only";
      case RecoveryList => assert token == "--recovery-list";
      case RecoveryClear => assert token == "--recovery-clear";
    }
  }

  lemma ValuedTexts(token: string, n: ValueFlag)
    ensures ValueFlagOf(token) == Some(n) <==> token == ValuedText(n)
  {
  }

  ghost predicate Reads(args: seq<string>, s: Seen) {
    Lex(args).Some? && AbsorbAll(Lex(args).value) == Some(s)
  }

  lemma ReadsOccurs(args: seq<string>, s: Seen, g: Group)
    requires Reads(args, s)
    ensures Times(s, g) == 1 <==> Occurs(args, g)
  {
    LexOccurs(args, g);
    SeenExactly(Lex(args).value, s, g);
  }

  lemma SwitchGiven(args: seq<string>, s: Seen, f: Flag)
    requires Reads(args, s)
    ensures f in s.flags <==> Given(args, SwitchText(f))
  {
    hide SwitchText, FlagOf, ValueFlagOf, ValueAt;
    ReadsOccurs(args, s, Switch(f));
    if i :| Starts(args, i) && GroupAt(args, i) == Switch(f) {
      SwitchTexts(args[i], f);
    }
    if i :| Starts(args, i) && args[i] == SwitchText(f) {
      SwitchTexts(args[i], f);
    }
  }

  lemma ValuedAt(args: seq<string>, n: ValueFlag, i: nat)
    requires Starts(args, i) && Lex(args).Some?
    ensures args[i] == ValuedText(n) <==> GroupAt(args, i).Valued? && GroupAt(args, i).name == n
    ensures args[i] == ValuedText(n) ==> i + 1 < |args| && GroupAt(args, i) == Valued(n, args[i + 1])
  {
    LexExactly(args);
    FlagTexts(args[i]);
    ValuedTexts(args[i], n);
  }

  lemma ValuedGiven(args: seq<string>, s: Seen, n: ValueFlag)
    requires Reads(args, s)
    ensures n in s.values <==> Given(args, ValuedText(n))
    ensures forall x :: (n in s.values && s.values[n] == x) <==> GivenAs(args, ValuedText(n), x)
  {
    hide ValuedText, ValueAt, GroupAt, Readable, Lex, AbsorbAll;
    forall x ensures (n in s.values && s.values[n] == x) <==> GivenAs(args, ValuedText(n), x) {
      ReadsOccurs(args, s, Valued(n, x));
      if i :| Starts(args, i) && GroupAt(args, i) == Valued(n, x) {
        ValuedAt(args, n, i);
      }
      if i :| Starts(args, i) && args[i] == ValuedText(n) && i + 1 < |args| && args[i + 1] == x {
        ValuedAt(args, n, i);
      }
    }
    if n in s.values {
      assert GivenAs(args, ValuedText(n), s.values[n]);
    }
    if i :| Starts(args, i) && args[i] == ValuedText(n) {
      ValuedAt(args, n, i);
      assert GivenAs(args, ValuedText(n), args[i + 1]);
    }
  }

  lemma PathGiven(args: seq<string>, s: Seen, p: string)
    requires Reads(args, s)
    ensures s.path == Some(p) <==> IsPath(p) && Given(args, p)
  {
    ReadsOccurs(args, s, Positional(p));
    LexExactly(args);
    FlagTexts(p);
    if i :| Starts(args, i) && GroupAt(args, i) == Positional(p) {
      assert Readable(args, i) && args[i] == p;
    }
    if IsPath(p) {
      if i :| Starts(args, i) && args[i] == p {
        assert GroupAt(args, i) == Positional(p);
      }
    }
  }

  /** Every field of an accepted list says what the tokens say. */
  lemma MeansExactly(args: seq<string>, x: string)
    requires Meaning(args).Some?
    ensures var a := Meaning(args).value;
      && (a.repairWalTail <==> Given(args, "--repair-wal-tail"))
      && (a.repairMainRef <==> Given(args, "--repair-main-ref"))
      && (a.repairIndex <==> Given(args, "--repair-index"))
      && (a.repairPointerTail <==> Given(args, "--repair-pointer-index-tail"))
      && (a.repairTails <==> Given(args, "--repair-tails"))
      && (a.rebuildPointerIndex <==> Given(args, "--rebuild-pointer-index"))
      && (a.discardDamaged <==> Given(args, "--discard-damaged-commits"))
      && (a.notCurrentBranch <==> Given(args, "--not-current-branch"))
      && (a.planOnly <==> Given(args, "--plan-only"))
      && (a.restoreQueueTargetRef.Some? <==> Given(args, "--restore-queue-target"))
      && (a.restoreQueueTargetRef == Some(x) <==> GivenAs(args, "--ref", x))
      && (a.cancelImport == Some(x) <==> GivenAs(args, "--cancel-import", x))
      && (a.recovery == Some(List) <==> Given(args, "--recovery-list"))
      && (a.recovery == Some(Clear) <==> Given(args, "--recovery-clear"))
      && (a.recovery == Some(Restore(x)) <==> GivenAs(args, "--recovery-restore", x))
      && (a.root == Some(x) <==> IsPath(x) && Given(args, x))
  {
    var s := AbsorbAll(Lex(args).value).value;
    hide Lex, AbsorbAll, Given, GivenAs;
    PlainGiven(args, s);
    CommandsGiven(args, s);
    RestGiven(args, s);
    ValuedGiven(args, s, Ref);
    ValuedGiven(args, s, CancelImport);
    ValuedGiven(args, s, RecoveryRestore);
    PathGiven(args, s, x);
  }

  lemma PlainGiven(args: seq<string>, s: Seen)
    requires Reads(args, s)
    ensures RepairWalTail in s.flags <==> Given(args, "--repair-wal-tail")
    ensures RepairMainRef in s.flags <==> Given(args, "--repair-main-ref")
    ensures RepairIndex in s.flags <==> Given(args, "--repair-index")
    ensures RepairPointerTail in s.flags <==> Given(args, "--repair-pointer-index-tail")
  {
    hide Reads, Given;
    SwitchGiven(args, s, RepairWalTail);
    SwitchGiven(args, s, RepairMainRef);
    SwitchGiven(args, s, RepairIndex);
    SwitchGiven(args, s, RepairPointerTail);
  }

  lemma CommandsGiven(args: seq<string>, s: Seen)
    requires Reads(args, s)
    ensures RepairTails in s.flags <==> Given(args, "--repair-tails")
    ensures RebuildPointerIndex in s.flags <==> Given(args, "--rebuild-pointer-index")
    ensures DiscardDamaged in s.flags <==> Given(args, "--discard-damaged-commits")
    ensures RestoreQueueTarget in s.flags <==> Given(args, "--restore-queue-target")
    ensures RecoveryList in s.flags <==> Given(args, "--recovery-list")
    ensures RecoveryClear in s.flags <==> Given(args, "--recovery-clear")
  {
    hide Reads, Given;
    SwitchGiven(args, s, RepairTails);
    SwitchGiven(args, s, RebuildPointerIndex);
    SwitchGiven(args, s, DiscardDamaged);
    SwitchGiven(args, s, RestoreQueueTarget);
    SwitchGiven(args, s, RecoveryList);
    SwitchGiven(args, s, RecoveryClear);
  }

  lemma RestGiven(args: seq<string>, s: Seen)
    requires Reads(args, s)
    ensures NotCurrentBranch in s.flags <==> Given(args, "--not-current-branch")
    ensures PlanOnly in s.flags <==> Given(args, "--plan-only")
  {
    hide Reads, Given;
    SwitchGiven(args, s, NotCurrentBranch);
    SwitchGiven(args, s, PlanOnly);
  }

  /** The commands that are run alone, as they were seen. */
  predicate AloneIn(s: Seen, k: int) {
    match k
    case 0 => RecoveryList in s.flags
    case 1 => RecoveryClear in s.flags
    case 2 => RecoveryRestore in s.values
    case 3 => CancelImport in s.values
    case 4 => RepairTails in s.flags
    case 5 => RebuildPointerIndex in s.flags
    case 6 => DiscardDamaged in s.flags
    case _ => RestoreQueueTarget in s.flags
  }

  predicate PlainIn(s: Seen, k: int) {
    match k
    case 0 => RepairWalTail in s.flags
    case 1 => RepairMainRef in s.flags
    case 2 => RepairIndex in s.flags
    case _ => RepairPointerTail in s.flags
  }

  lemma AloneGiven(args: seq<string>, s: Seen, k: int)
    requires Reads(args, s) && 0 <= k < |ALONE|
    ensures AloneIn(s, k) <==> Given(args, ALONE[k])
  {
    hide Reads, Given;
    CommandsGiven(args, s);
    ValuedGiven(args, s, CancelImport);
    ValuedGiven(args, s, RecoveryRestore);
  }

  lemma PlainAt(args: seq<string>, s: Seen, k: int)
    requires Reads(args, s) && 0 <= k < |PLAIN|
    ensures PlainIn(s, k) <==> Given(args, PLAIN[k])
  {
    hide Reads, Given;
    PlainGiven(args, s);
  }

  ghost predicate CompatibleIn(s: Seen) {
    && (forall i, j :: 0 <= i < j < 8 ==> !(AloneIn(s, i) && AloneIn(s, j)))
    && (forall i, j :: 0 <= i < 8 && 0 <= j < 4 ==> !(AloneIn(s, i) && PlainIn(s, j)))
    && (Ref in s.values <==> RestoreQueueTarget in s.flags)
    && (NotCurrentBranch in s.flags ==> RestoreQueueTarget in s.flags)
    && (PlanOnly in s.flags ==> exists i :: 1 <= i < 8 && AloneIn(s, i))
  }

  lemma PermittedMeans(s: Seen)
    ensures Permitted(s) <==> CompatibleIn(s)
  {
    var plain := s.flags * PLAIN_REPAIRS != {};
    assert plain <==> PlainIn(s, 0) || PlainIn(s, 1) || PlainIn(s, 2) || PlainIn(s, 3) by {
      assert forall f :: f in s.flags * PLAIN_REPAIRS <==> f in s.flags && f in PLAIN_REPAIRS;
    }
    assert AloneIn(s, 0) <==> RecoveryList in s.flags;
    assert AloneIn(s, 1) <==> RecoveryClear in s.flags;
    assert AloneIn(s, 2) <==> RecoveryRestore in s.values;
    assert AloneIn(s, 3) <==> CancelImport in s.values;
    assert AloneIn(s, 4) <==> RepairTails in s.flags;
    assert AloneIn(s, 5) <==> RebuildPointerIndex in s.flags;
    assert AloneIn(s, 6) <==> DiscardDamaged in s.flags;
    assert AloneIn(s, 7) <==> RestoreQueueTarget in s.flags;
  }

  /** The exclusions, as they are checked and as they are meant. */
  lemma PermittedExactly(args: seq<string>, s: Seen)
    requires Reads(args, s)
    ensures Permitted(s) <==> Compatible(args)
  {
    hide Reads, Given, Permitted, AloneIn, PlainIn;
    assert |ALONE| == 8 && |PLAIN| == 4;
    forall k | 0 <= k < 8 ensures AloneIn(s, k) <==> Given(args, ALONE[k]) {
      AloneGiven(args, s, k);
    }
    forall k | 0 <= k < 4 ensures PlainIn(s, k) <==> Given(args, PLAIN[k]) {
      PlainAt(args, s, k);
    }
    RestGiven(args, s);
    CommandsGiven(args, s);
    ValuedGiven(args, s, Ref);
    PermittedMeans(s);
    CompatibleMeans(args, s);
  }

  lemma CompatibleMeans(args: seq<string>, s: Seen)
    requires forall k :: 0 <= k < |ALONE| ==> (AloneIn(s, k) <==> Given(args, ALONE[k]))
    requires forall k :: 0 <= k < |PLAIN| ==> (PlainIn(s, k) <==> Given(args, PLAIN[k]))
    requires Ref in s.values <==> Given(args, "--ref")
    requires RestoreQueueTarget in s.flags <==> Given(args, "--restore-queue-target")
    requires NotCurrentBranch in s.flags <==> Given(args, "--not-current-branch")
    requires PlanOnly in s.flags <==> Given(args, "--plan-only")
    ensures CompatibleIn(s) <==> Compatible(args)
  {
    hide Given, AloneIn, PlainIn;
    assert |ALONE| == 8 && |PLAIN| == 4;
  }

  lemma ClashTokens(args: seq<string>, i: nat, j: nat)
    requires AllReadable(args) && Starts(args, i) && Starts(args, j)
    ensures Clash(GroupAt(args, i), GroupAt(args, j)) <==> Repetition(args[i], args[j])
  {
    FlagTexts(args[i]);
    FlagTexts(args[j]);
    var g := GroupAt(args, i);
    assert Readable(args, i) && Readable(args, j);
    match g {
      case Switch(f) =>
        SwitchTexts(args[i], f);
        SwitchTexts(args[j], f);
      case Valued(n, _) =>
        ValuedTexts(args[i], n);
        ValuedTexts(args[j], n);
      case Positional(_) =>
    }
  }

  /** A list is accepted exactly when it can be read, repeats nothing, and asks for what goes together. */
  lemma AcceptedExactly(args: seq<string>)
    ensures Meaning(args).Some? <==> Legible(args) && Unrepeated(args) && Compatible(args)
  {
    hide Lex, AbsorbAll, Permitted, Compatible;
    LexExactly(args);
    LegibleExactly(args);
    if Lex(args).Some? {
      ClashesExactly(args);
      AbsorbAllExactly(Lex(args).value);
      UnrepeatedExactly(args);
      if AbsorbAll(Lex(args).value).Some? {
        PermittedExactly(args, AbsorbAll(Lex(args).value).value);
      }
    }
  }

  lemma LegibleExactly(args: seq<string>)
    ensures Legible(args) <==> AllReadable(args)
  {
    hide ValueAt, Readable, LegibleAt;
    forall i | Starts(args, i) ensures Readable(args, i) <==> LegibleAt(args, i) {
      LegibleHere(args, i);
    }
  }

  lemma LegibleHere(args: seq<string>, i: nat)
    requires i < |args|
    ensures Readable(args, i) <==> LegibleAt(args, i)
  {
    hide FlagOf, ValueFlagOf;
    FlagTexts(args[i]);
  }

  lemma UnrepeatedExactly(args: seq<string>)
    requires AllReadable(args)
    ensures Unrepeated(args) <==> !AnyClash(args)
  {
    hide ValueAt, AllReadable, Repetition, Clash, GroupAt;
    forall i, j | Starts(args, i) && Starts(args, j) && i < j
      ensures ClashAt(args, i, j) <==> Repetition(args[i], args[j])
    {
      ClashTokens(args, i, j);
    }
  }

  // ----- the dispatcher -----

  /** The store functions `run_doctor` may call. */
  datatype Call =
    | PlanRebuild | Rebuild | PlanDiscard | Discard
    | PlanRestoreQueue(name: string, notCurrent: bool) | RestoreQueue(name: string, notCurrent: bool)
    | RunRecovery(command: Recovery, plan: bool) | Cancel(id: string, plan: bool)
    | PlanTails | Tails | Index | PointerTail | Repository(walTail: bool, mainRef: bool) | Diagnose

  /** The calls that change the repository. */
  predicate Writes(c: Call) {
    match c
    case Rebuild | Discard | RestoreQueue(_, _) | Tails | Index | PointerTail | Repository(_, _) => true
    case RunRecovery(command, plan) => !plan && !command.List?
    case Cancel(_, plan) => !plan
    case _ => false
  }

  /** The repairs an accepted argument list asks for, whatever else it says. */
  function Requested(a: DoctorArgs): set<Call> {
    (if a.rebuildPointerIndex then {Rebuild} else {})
    + (if a.discardDamaged then {Discard} else {})
    + (if a.restoreQueueTargetRef.Some? then {RestoreQueue(a.restoreQueueTargetRef.value, a.notCurrentBranch)} else {})
    + (if a.recovery.Some? && !a.recovery.value.List? then {RunRecovery(a.recovery.value, false)} else {})
    + (if a.cancelImport.Some? then {Cancel(a.cancelImport.value, false)} else {})
    + (if a.repairTails then {Tails} else {})
    + (if a.repairIndex then {Index} else {})
    + (if a.repairPointerTail then {PointerTail} else {})
    + (if a.repairWalTail || a.repairMainRef then {Repository(a.repairWalTail, a.repairMainRef)} else {})
  }

  function Exclusives(a: DoctorArgs): nat {
    (if a.rebuildPointerIndex then 1 else 0) + (if a.discardDamaged then 1 else 0)
    + (if a.restoreQueueTargetRef.Some? then 1 else 0) + (if a.recovery.Some? then 1 else 0)
    + (if a.cancelImport.Some? then 1 else 0) + (if a.repairTails then 1 else 0)
  }

  predicate AnyPlainRepair(a: DoctorArgs) {
    a.repairWalTail || a.repairMainRef || a.repairIndex || a.repairPointerTail
  }

  /**
   What the dispatcher relies on: at most one exclusive command, never beside a plain repair; a plan has
   one to plan.
   */
  ghost predicate Coherent(a: DoctorArgs) {
    && Exclusives(a) <= 1
    && (Exclusives(a) == 1 ==> !AnyPlainRepair(a))
    && (a.planOnly ==> Exclusives(a) == 1 && a.recovery != Some(List))
    && (a.notCurrentBranch ==> a.restoreQueueTargetRef.Some?)
  }

  lemma AcceptedIsCoherent(args: seq<string>)
    requires Meaning(args).Some?
    ensures Coherent(Meaning(args).value)
  {
    var s := AbsorbAll(Lex(args).value).value;
    assert forall f :: f in s.flags * PLAIN_REPAIRS <==> f in s.flags && f in PLAIN_REPAIRS;
  }

  /** The calls `run_doctor` makes when none of them errors, in order. */
  function Steps(a: DoctorArgs): seq<Call> {
    if a.rebuildPointerIndex then [if a.planOnly then PlanRebuild else Rebuild]
    else if a.discardDamaged then [if a.planOnly then PlanDiscard else Discard]
    else if a.restoreQueueTargetRef.Some? then
      var name := a.restoreQueueTargetRef.value;
      [if a.planOnly then PlanRestoreQueue(name, a.notCurrentBranch) else RestoreQueue(name, a.notCurrentBranch)]
    else if a.recovery.Some? then [RunRecovery(a.recovery.value, a.planOnly)]
    else if a.cancelImport.Some? then [Cancel(a.cancelImport.value, a.planOnly)]
    else if a.repairTails then if a.planOnly then [PlanTails] else [Tails, Diagnose]
    else RepairSteps(a)
  }

  /** The plain repairs, which may be combined. */
  function RepairSteps(a: DoctorArgs): seq<Call> {
    (if a.repairIndex then [Index] else [])
    + (if a.repairPointerTail then [PointerTail] else [])
    + (if a.repairWalTail || a.repairMainRef then [Repository(a.repairWalTail, a.repairMainRef)] else [Diagnose])
  }

  /** The repairs made are exactly those asked for, each once; a plan makes none. */
  lemma StepsAreRequested(a: DoctorArgs)
    requires Coherent(a)
    ensures (set c | c in Steps(a) && Writes(c)) == if a.planOnly then {} else Requested(a)
    ensures forall i, j :: 0 <= i < j < |Steps(a)| ==> Steps(a)[i] != Steps(a)[j]
  {
  }

  /** How the calls turn out. */
  datatype Fates = Fates(failing: set<Call>, lostIds: bool, healthy: bool, skipped: bool)

  /**
   When the steps count as a success: no call errs, the index lost no id, no session was skipped, and
   the repository is healthy wherever that is looked at.
   */
  predicate Succeeds(steps: seq<Call>, fates: Fates) {
    && (forall c :: c in steps ==> c !in fates.failing)
    && (Index in steps ==> !fates.lostIds)
    && (forall c :: c in steps && c.Repository? ==> !fates.skipped)
    && (forall c :: c in steps && (c.Diagnose? || c.Repository?) ==> fates.healthy)
  }

  /** The same for the plain repairs, one by one. */
  lemma RepairsSucceed(a: DoctorArgs, fates: Fates)
    ensures Succeeds(RepairSteps(a), fates) <==>
              && (a.repairIndex ==> Index !in fates.failing && !fates.lostIds)
              && (a.repairPointerTail ==> PointerTail !in fates.failing)
              && fates.healthy
              && if a.repairWalTail || a.repairMainRef
                 then Repository(a.repairWalTail, a.repairMainRef) !in fates.failing && !fates.skipped
                 else Diagnose !in fates.failing
  {
    var steps := RepairSteps(a);
    assert a.repairIndex <==> Index in steps;
    assert a.repairPointerTail <==> PointerTail in steps;
    var last := if a.repairWalTail || a.repairMainRef then Repository(a.repairWalTail, a.repairMainRef) else Diagnose;
    assert last in steps;
  }

  lemma TailsSucceed(fates: Fates)
    ensures Succeeds([Tails, Diagnose], fates) <==>
              Tails !in fates.failing && Diagnose !in fates.failing && fates.healthy
  {
    assert Tails in [Tails, Diagnose] && Diagnose in [Tails, Diagnose];
  }

  class Dispatcher {
    var calls: seq<Call>
    const fates: Fates

    constructor (fates: Fates)
      ensures calls == [] && this.fates == fates
    {
      calls := [];
      this.fates := fates;
    }

    method Do(c: Call) returns (ok: bool)
      modifies this
      ensures calls == old(calls) + [c] && (ok <==> c !in fates.failing)
    {
      calls := calls + [c];
      ok := c !in fates.failing;
    }

    /** `run_doctor` after parsing. */
    method Run(a: DoctorArgs) returns (ok: bool)
      requires calls == []
      modifies this
      ensures calls <= Steps(a)
      ensures (forall c :: c in Steps(a) ==> c !in fates.failing) ==> calls == Steps(a)
      ensures ok <==> Succeeds(Steps(a), fates)
    {
      if a.rebuildPointerIndex {
        ok := Do(if a.planOnly then PlanRebuild else Rebuild);
        return;
      }
      if a.discardDamaged {
        ok := Do(if a.planOnly then PlanDiscard else Discard);
        return;
      }
      if a.restoreQueueTargetRef.Some? {
        var name := a.restoreQueueTargetRef.value;
        ok := Do(if a.planOnly then PlanRestoreQueue(name, a.notCurrentBranch)
                 else RestoreQueue(name, a.notCurrentBranch));
        return;
      }
      if a.recovery.Some? {
        ok := Do(RunRecovery(a.recovery.value, a.planOnly));
        return;
      }
      if a.cancelImport.Some? {
        ok := Do(Cancel(a.cancelImport.value, a.planOnly));
        return;
      }
      if a.repairTails {
        if a.planOnly {
          ok := Do(PlanTails);
          return;
        }
        TailsSucceed(fates);
        ok := Do(Tails);
        if !ok { return; }
        ok := Do(Diagnose);
        ok := ok && fates.healthy;
        return;
      }
      ok := RunRepairs(a);
    }

    /** The plain repairs, each of them if asked for, and the diagnosis that ends them. */
    method RunRepairs(a: DoctorArgs) returns (ok: bool)
      requires calls == []
      modifies this
      ensures calls <= RepairSteps(a)
      ensures (forall c :: c in RepairSteps(a) ==> c !in fates.failing) ==> calls == RepairSteps(a)
      ensures ok <==> Succeeds(RepairSteps(a), fates)
    {
      RepairsSucceed(a, fates);
      hide Succeeds;
      var lost := false;
      if a.repairIndex {
        ok := Do(Index);
        if !ok { return; }
        lost := fates.lostIds;
        if !a.repairWalTail && !a.repairMainRef && !a.repairPointerTail {
          ok := Do(Diagnose);
          ok := ok && fates.healthy && !lost;
          return;
        }
      }
      if a.repairPointerTail {
        ok := Do(PointerTail);
        if !ok { return; }
        if !a.repairWalTail && !a.repairMainRef {
          ok := Do(Diagnose);
          ok := ok && fates.healthy && !lost;
          return;
        }
      }
      if a.repairWalTail || a.repairMainRef {
        ok := Do(Repository(a.repairWalTail, a.repairMainRef));
        ok := ok && !fates.skipped && fates.healthy && !lost;
      } else {
        ok := Do(Diagnose);
        ok := ok && fates.healthy;
      }
    }
  }
}
