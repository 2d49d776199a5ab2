/**
 The one-way cutover from legacy delivery to signal execution: durable guards, pinned once per account, decide
 for every row and every later configuration which execution owns it.
 */
module Cutover {
  import opened Basics

  /** Pinned at first enable: the receive cutoff and the highest watcher row that existed. */
  datatype Guard = Guard(cutoff: int, highWater: nat)
  type Guards = map<Account, Guard>

  /** Opted-in accounts with their receive cutoffs. */
  type Config = map<Account, int>

  datatype CutoverError = LegacyActive | CutoffDiffers | GuardMissing

  /** The pending legacy delivery at start-up, if it could still have a live job. */
  datatype LegacyWork = NoLegacyWork | ActiveLegacyWork(owner: Option<Account>)

  datatype WatcherRow = WatcherRow(id: Option<nat>, receivedAt: int)

  datatype Owner = Legacy | Signal | History | Disabled

  ghost predicate GuardsKept(before: Guards, after: Guards) {
    forall a :: a in before ==> a in after && after[a] == before[a]
  }

  /** `initialize_signal_execution_cutover`; accounts lists the configured names in configuration order. */
  method InitializeCutover(config: Config, accounts: seq<Account>, guards: Guards, work: LegacyWork, latest: nat)
    returns (r: Result<Guards, CutoverError>)
    requires forall a :: a in accounts <==> a in config
    ensures r.Ok? ==>
              && GuardsKept(guards, r.value) && r.value.Keys == guards.Keys + config.Keys
              && (forall a :: a in config ==> r.value[a].cutoff == config[a])
              && (forall a :: a in r.value && a !in guards ==> r.value[a] == Guard(config[a], latest))
    ensures r == Err(LegacyActive) <==>
              config != map[] && work.ActiveLegacyWork? && (work.owner.None? || work.owner.value in config)
    ensures r.Err? && r.error != LegacyActive ==>
              exists a :: a in config && a in guards && guards[a].cutoff != config[a]
    ensures (exists a :: a in config && a in guards && guards[a].cutoff != config[a]) ==> r.Err?
  {
    if config != map[] && work.ActiveLegacyWork? && (work.owner.None? || work.owner.value in config) {
      return Err(LegacyActive);
    }
    var next := guards;
    for i := 0 to |accounts|
      invariant GuardsKept(guards, next) && next.Keys == guards.Keys + set a | a in accounts[..i]
      invariant forall a :: a in accounts[..i] ==> next[a].cutoff == config[a]
      invariant forall a :: a in next && a !in guards ==> a in config && next[a] == Guard(config[a], latest)
    {
      var a := accounts[i];
      assert accounts[..i + 1] == accounts[..i] + [a];
      if a in next {
        if next[a].cutoff != config[a] {
          assert a in guards;
          return Err(CutoffDiffers);
        }
      } else {
        next := next[a := Guard(config[a], latest)];
      }
    }
    assert accounts[..|accounts|] == accounts;
    r := Ok(next);
  }

  /** The row was received after the cutover that the guard pinned. */
  predicate After(g: Guard, row: WatcherRow) {
    row.id.Some? && row.id.value > g.highWater && row.receivedAt >= g.cutoff
  }

  /** `_signal_dispatch_mode`. */
  function DispatchMode(config: Config, guards: Guards, row: WatcherRow, account: Account)
    : Result<Owner, CutoverError>
  {
    if account !in config && account !in guards then Ok(Legacy)
    else if account !in guards then Err(GuardMissing)
    else if account !in config then Ok(Disabled)
    else if config[account] != guards[account].cutoff then Err(CutoffDiffers)
    else if !After(guards[account], row) then Ok(History)
    else Ok(Signal)
  }

  /** The five cases, over the configuration, the guard and the row. */
  lemma DispatchModeExactly(config: Config, guards: Guards, row: WatcherRow, account: Account)
    ensures var mode := DispatchMode(config, guards, row, account);
            && (mode == Ok(Legacy) <==> account !in config && account !in guards)
            && (mode == Err(GuardMissing) <==> account in config && account !in guards)
            && (mode == Ok(Disabled) <==> account !in config && account in guards)
            && (mode == Err(CutoffDiffers) <==>
                 account in config && account in guards && config[account] != guards[account].cutoff)
            && (mode == Ok(Signal) <==>
                  && account in config && account in guards && config[account] == guards[account].cutoff
                  && row.id.Some? && row.id.value > guards[account].highWater &&
                     row.receivedAt >= guards[account].cutoff)
            && (mode == Ok(History) <==>
                  && account in config && account in guards && config[account] == guards[account].cutoff
                  && (row.id.None? || row.id.value <= guards[account].highWater ||
                      row.receivedAt < guards[account].cutoff))
  {
  }

  /** Whatever the configuration becomes, a guarded account's row keeps its side of the cutover. */
  lemma RowNeverFlips(config: Config, guards: Guards, config': Config, guards': Guards, row: WatcherRow,
                      account: Account)
    requires GuardsKept(guards, guards') && account in guards
    ensures DispatchMode(config, guards, row, account) == Ok(Signal) ==>
              DispatchMode(config', guards', row, account) !in {Ok(History), Ok(Legacy)}
    ensures DispatchMode(config, guards, row, account) == Ok(History) ==>
              DispatchMode(config', guards', row, account) !in {Ok(Signal), Ok(Legacy)}
    ensures DispatchMode(config', guards', row, account) != Ok(Legacy)
  {
  }

  /**
   A row that existed when its account was first enabled is never executed as signal, under any later configuration.
   */
  lemma RowsBeforeEnableAreNeverSignal(config: Config, guards: Guards, row: WatcherRow, account: Account,
                                       pinned: Guards, latest: nat)
    requires account in pinned && pinned[account].highWater == latest && GuardsKept(pinned, guards)
    requires row.id.Some? && row.id.value <= latest
    ensures DispatchMode(config, guards, row, account) !in {Ok(Signal), Ok(Legacy)}
  {
  }

  // ---------- over restarts and reconfigurations ----------

  datatype Event =
    | GuardsSaved(guards: Guards)
    | Decided(account: Account, row: WatcherRow, owner: Owner)
    | LegacyJob(account: Account)
    | Tasked(account: Account, row: WatcherRow, owner: Owner)

  type Log = seq<Event>

  /** The guard file on disk. */
  function GuardsOf(log: Log): Guards {
    if log == [] then map[]
    else if log[|log| - 1].GuardsSaved? then log[|log| - 1].guards
    else GuardsOf(log[..|log| - 1])
  }

  ghost predicate Permitted(guards: Guards, e: Event) {
    match e
    case GuardsSaved(g) => GuardsKept(guards, g)
    case Decided(_, _, _) => true
    case LegacyJob(account) => account !in guards
    case Tasked(account, row, owner) =>
      && account in guards
      && (owner == Signal ==> After(guards[account], row)) && (owner == History ==> !After(guards[account], row))
  }

  ghost predicate Lawful(log: Log) {
    log == [] || (Lawful(log[..|log| - 1]) && Permitted(GuardsOf(log[..|log| - 1]), log[|log| - 1]))
  }

  lemma LawfulStep(log: Log, e: Event)
    ensures Lawful(log + [e]) <==> Lawful(log) && Permitted(GuardsOf(log), e)
    ensures GuardsOf(log + [e]) == if e.GuardsSaved? then e.guards else GuardsOf(log)
  {
    assert (log + [e])[..|log + [e]| - 1] == log;
  }

  lemma {:induction false} LawfulPrefix(log: Log, k: nat)
    requires Lawful(log) && k <= |log|
    ensures Lawful(log[..k])
    decreases |log|
  {
    if k < |log| {
      assert log[..|log| - 1][..k] == log[..k];
      LawfulPrefix(log[..|log| - 1], k);
    } else {
      assert log[..k] == log;
    }
  }

  lemma NothingIsLawful()
    ensures Lawful([])
  {
  }

  /** A guard, once durable, is never changed or removed. */
  lemma {:induction false} GuardsOnlyGrow(log: Log, i: nat, j: nat)
    requires Lawful(log) && i <= j <= |log|
    ensures GuardsKept(GuardsOf(log[..i]), GuardsOf(log[..j]))
    decreases j
  {
    if i < j {
      GuardsOnlyGrow(log, i, j - 1);
      LawfulPrefix(log, j);
      assert log[..j][..j - 1] == log[..j - 1];
    }
  }

  /** No legacy job is ever created for an account once it was guarded, opted in or not. */
  lemma {:induction false} NoLegacyJobOnceGuarded(log: Log, i: nat, j: nat, account: Account)
    requires Lawful(log) && i <= j < |log| && account in GuardsOf(log[..i])
    ensures log[j] != LegacyJob(account)
  {
    GuardsOnlyGrow(log, i, j);
    LawfulPrefix(log, j + 1);
    assert log[..j + 1][..j] == log[..j];
  }

  /** Two tasks for one row of one account. */
  predicate SameTask(a: Event, b: Event) { a.Tasked? && b.Tasked? && a.account == b.account && a.row == b.row }

  /** A row that was once executed as signal was not, and will not be, filed as history, and vice versa. */
  lemma {:induction false} TasksNeverFlip(log: Log, i: nat, j: nat)
    requires Lawful(log) && i < |log| && j < |log| && SameTask(log[i], log[j])
    ensures !(log[i].owner == Signal && log[j].owner == History)
  {
    var a, b := if i <= j then i else j, if i <= j then j else i;
    GuardsOnlyGrow(log, a, b);
    LawfulPrefix(log, i + 1);
    LawfulPrefix(log, j + 1);
    assert log[..i + 1][..i] == log[..i] && log[..j + 1][..j] == log[..j];
  }

  /** One process life: its opt-in configuration, and the rows (with their routed accounts) it handles. */
  datatype Boot = Boot(config: Config, accounts: seq<Account>, work: LegacyWork, latest: nat,
                       rows: seq<(Account, WatcherRow)>)

  /** What any sequence of process lives leaves, when life n is stopped after cuts[n] of its steps. */
  function Lives(boots: seq<Boot>, cuts: seq<nat>): Log
    requires |boots| == |cuts|
  {
    if boots == [] then []
    else
      var n := |boots| - 1;
      var log := Lives(boots[..n], cuts[..n]);
      var events := BootEvents(GuardsOf(log), boots[n]);
      log + if cuts[n] < |events| then events[..cuts[n]] else events
  }

  /** Any sequence of restarts with any configurations, each stopped after any of its steps. */
  method RunBoots(boots: seq<Boot>, cuts: seq<nat>) returns (log: Log)
    requires |boots| == |cuts| && forall b :: b in boots ==> forall a :: a in b.accounts <==> a in b.config
    ensures Lawful(log) && log == Lives(boots, cuts)
    ensures forall i, j, a :: 0 <= i <= j < |log| && a in GuardsOf(log[..i]) ==> log[j] != LegacyJob(a)
    ensures forall i, j :: 0 <= i < |log| && 0 <= j < |log| && SameTask(log[i], log[j]) ==>
                             !(log[i].owner == Signal && log[j].owner == History)
  {
    hide BootEvents, Lawful, GuardsOf;
    assert Lawful([]) by { NothingIsLawful(); }
    log := [];
    for n := 0 to |boots|
      invariant Lawful(log) && log == Lives(boots[..n], cuts[..n])
    {
      assert boots[..n + 1][..n] == boots[..n] && cuts[..n + 1][..n] == cuts[..n];
      var before := log;
      log := RunBoot(log, boots[n]);
      if |before| + cuts[n] < |log| {
        LawfulPrefix(log, |before| + cuts[n]);
        log := log[..|before| + cuts[n]];
      }
    }
    assert boots[..|boots|] == boots && cuts[..|cuts|] == cuts;
    forall i, j, a | 0 <= i <= j < |log| && a in GuardsOf(log[..i]) ensures log[j] != LegacyJob(a) {
      NoLegacyJobOnceGuarded(log, i, j, a);
    }
    forall i, j | 0 <= i < |log| && 0 <= j < |log| && SameTask(log[i], log[j])
      ensures !(log[i].owner == Signal && log[j].owner == History)
    {
      TasksNeverFlip(log, i, j);
    }
  }

  /** What a process does with its rows, one after the other, while its guards stay as they are. */
  function Handled(config: Config, guards: Guards, rows: seq<(Account, WatcherRow)>): seq<Event> {
    if rows == [] then []
    else
      var earlier, (account, row) := Handled(config, guards, rows[..|rows| - 1]), rows[|rows| - 1];
      var mode := DispatchMode(config, guards, row, account);
      if mode.Err? then earlier
      else if mode.value == Legacy then earlier + [Decided(account, row, Legacy), LegacyJob(account)]
      else earlier + [Decided(account, row, mode.value), Tasked(account, row, mode.value)]
  }

  /** The guards after an accepted start: the old ones, and one at the latest row for each newly configured account. */
  function Pinned(guards: Guards, config: Config, latest: nat): Guards {
    map a | a in guards.Keys + config.Keys :: if a in guards then guards[a] else Guard(config[a], latest)
  }

  /** A start is refused while legacy work may still be running, or when a cutoff differs from the pinned one. */
  predicate StartRefused(guards: Guards, b: Boot) {
    || (b.config != map[] && b.work.ActiveLegacyWork? && (b.work.owner.None? || b.work.owner.value in b.config))
    || exists a :: a in b.config && a in guards && guards[a].cutoff != b.config[a]
  }

  /** Everything one process life does: nothing if refused, else pin the new guards first and then handle every row. */
  function BootEvents(guards: Guards, b: Boot): seq<Event> {
    if b.config == map[] && guards == map[] then Handled(b.config, guards, b.rows)
    else if StartRefused(guards, b) then []
    else
      var next := Pinned(guards, b.config, b.latest);
      (if next == guards then [] else [GuardsSaved(next)]) + Handled(b.config, next, b.rows)
  }

  /** The guards a start leaves, or nothing if it is refused. */
  method StartUp(guards: Guards, b: Boot) returns (r: Option<Guards>)
    requires forall a :: a in b.accounts <==> a in b.config
    ensures r.None? <==> StartRefused(guards, b)
    ensures r.Some? ==> r.value == Pinned(guards, b.config, b.latest) && GuardsKept(guards, r.value)
  {
    var next := InitializeCutover(b.config, b.accounts, guards, b.work, b.latest);
    r := if next.Ok? then Some(next.value) else None;
  }

  /** The rows of one process life, each decided and then carried out. */
  method HandleRows(log0: Log, config: Config, guards: Guards, rows: seq<(Account, WatcherRow)>) returns (log: Log)
    requires Lawful(log0) && guards == GuardsOf(log0)
    ensures Lawful(log) && log == log0 + Handled(config, guards, rows)
  {
    hide Lawful, GuardsOf;
    log := log0;
    for i := 0 to |rows|
      invariant Lawful(log) && guards == GuardsOf(log) && log == log0 + Handled(config, guards, rows[..i])
    {
      var (account, row) := rows[i];
      assert rows[..i + 1][..i] == rows[..i];
      var mode := DispatchMode(config, guards, row, account);
      if mode.Err? { continue; }
      LawfulStep(log, Decided(account, row, mode.value));
      log := log + [Decided(account, row, mode.value)];
      var e := if mode.value == Legacy then LegacyJob(account) else Tasked(account, row, mode.value);
      LawfulStep(log, e);
      log := log + [e];
    }
    assert rows[..|rows|] == rows;
  }

  /** One process life, as BootEvents says. */
  method RunBoot(log0: Log, b: Boot) returns (log: Log)
    requires Lawful(log0) && forall a :: a in b.accounts <==> a in b.config
    ensures Lawful(log) && log == log0 + BootEvents(GuardsOf(log0), b)
  {
    hide Lawful, GuardsOf, GuardsKept, Handled, Pinned, StartRefused;
    log := log0;
    var guards := GuardsOf(log);
    if b.config != map[] || guards != map[] {
      var next := StartUp(guards, b);
      if next.None? { return; }
      if next.value != guards {
        LawfulStep(log, GuardsSaved(next.value));
        log, guards := log + [GuardsSaved(next.value)], next.value;
      }
    }
    log := HandleRows(log, b.config, guards, b.rows);
  }
}
