/**
 Applying a risk policy to several node configs with a backup, and rolling it back: every write is an atomic
 replace that may fail before or after taking effect, and the process may stop after any write.
 */
module NodeConfig {
  import opened Basics

  type Bytes = string

  datatype Path = Path(dir: string, name: string)

  // ---------- risk policy ----------

  const INSTRUMENTS := {"BNBUSDT-PERP.BINANCE", "BTCUSDT-PERP.BINANCE", "ETHUSDT-PERP.BINANCE", "SOLUSDT-PERP.BINANCE"}
  const DEFAULT_KEY := "*"
  const ACCOUNTS := {"account-a", "account-b", "account-c", "account-d"}

  datatype Risk = Risk(caps: map<string, real>, submitRate: string, modifyRate: string)

  datatype Policy = Policy(ceiling: real, targetCap: real, defaultCap: real)

  /** `_positive_cap`. */
  predicate PositiveCap(cap: real, ceiling: real) { 0.0 < cap <= ceiling }

  /** `load_risk_policy` accepts the policy. */
  predicate PolicyValid(p: Policy) {
    p.ceiling > 0.0 && PositiveCap(p.targetCap, p.ceiling) && PositiveCap(p.defaultCap, p.ceiling)
  }

  /** `_validate_migration_risk`; rateOk is the submit and modify rate format. */
  predicate RiskValid(r: Risk, ceiling: real, allowDefault: bool, rateOk: string -> bool) {
    && INSTRUMENTS <= r.caps.Keys <= (if allowDefault then INSTRUMENTS + {DEFAULT_KEY} else INSTRUMENTS)
    && (forall k :: k in r.caps ==> PositiveCap(r.caps[k], ceiling))
    && rateOk(r.submitRate) && rateOk(r.modifyRate)
  }

  /** `_policy_target_risk`. */
  function TargetRisk(legacy: Risk, p: Policy): Risk {
    Risk((map k | k in INSTRUMENTS :: p.targetCap)[DEFAULT_KEY := p.defaultCap], legacy.submitRate, legacy.modifyRate)
  }

  /** The target passes the same validation as the configs it is written to, so applying twice is accepted. */
  lemma TargetRiskIsValid(legacy: Risk, p: Policy, rateOk: string -> bool)
    requires PolicyValid(p) && RiskValid(legacy, p.ceiling, false, rateOk)
    ensures RiskValid(TargetRisk(legacy, p), p.ceiling, true, rateOk)
    ensures forall k :: k in INSTRUMENTS ==> TargetRisk(legacy, p).caps[k] == p.targetCap
    ensures TargetRisk(legacy, p).caps[DEFAULT_KEY] == p.defaultCap
  {
    var caps := TargetRisk(legacy, p).caps;
    assert caps.Keys == INSTRUMENTS + {DEFAULT_KEY};
  }

  datatype Config = Config(account: Account, risk: Option<Risk>, rest: Bytes)

  /** JSON reading and the canonical writer used for updated configs. */
  datatype Codec = Codec(parse: Bytes -> Option<Config>, render: Config -> Bytes)

  ghost predicate Faithful(codec: Codec) {
    forall c :: codec.parse(codec.render(c)) == Some(c)
  }

  /** The config `apply_policy` makes of an original, or None when it refuses it. */
  function UpdatedConfig(codec: Codec, rateOk: string -> bool, p: Policy, legacy: Risk, account: Account,
                         original: Bytes): Option<Config> {
    var c := codec.parse(original);
    if c.None? || c.value.account != account then None
    else if c.value.risk.Some? && !RiskValid(c.value.risk.value, p.ceiling, true, rateOk) then None
    else if c.value.risk.Some? && c.value.risk.value != legacy && c.value.risk.value != TargetRisk(legacy, p) then None
    else Some(c.value.(risk := Some(TargetRisk(legacy, p))))
  }

  /** The bytes `apply_policy` writes for a config. */
  function Updated(codec: Codec, rateOk: string -> bool, p: Policy, legacy: Risk, account: Account,
                   original: Bytes): Option<Bytes> {
    var c := UpdatedConfig(codec, rateOk, p, legacy, account, original);
    if c.None? then None else Some(codec.render(c.value))
  }

  /** Applying the policy to an applied config is accepted and gives the same bytes. */
  lemma ApplyTwiceIsApplyOnce(codec: Codec, rateOk: string -> bool, p: Policy, legacy: Risk, account: Account,
                              original: Bytes)
    requires Faithful(codec) && PolicyValid(p) && RiskValid(legacy, p.ceiling, false, rateOk)
    requires Updated(codec, rateOk, p, legacy, account, original).Some?
    ensures var once := Updated(codec, rateOk, p, legacy, account, original);
            Updated(codec, rateOk, p, legacy, account, once.value) == once
  {
    TargetRiskIsValid(legacy, p, rateOk);
    var applied := codec.parse(original).value.(risk := Some(TargetRisk(legacy, p)));
    assert codec.parse(codec.render(applied)) == Some(applied);
  }

  // ---------- files ----------

  datatype ManifestStatus = Prepared | Applied | RolledBack

  datatype Entry = Entry(account: Account, source: Path, digest: Digest)

  datatype Content = Text(bytes: Bytes) | Manifest(status: ManifestStatus, entries: seq<Entry>)

  type Files = map<Path, Content>

  function BackupPath(dir: string, account: Account): Path { Path(dir, account + ".json") }

  function ManifestPath(dir: string): Path { Path(dir, "manifest.json") }

  /** What one apply is about: for each account its path, the original bytes, the new config and its bytes. */
  datatype Target = Target(account: Account, path: Path, original: Bytes, config: Config, updated: Bytes)

  datatype Plan = Plan(targets: seq<Target>, dir: string)

  /** Accounts and paths are distinct and no config lies in the backup directory. */
  ghost predicate PlanOk(plan: Plan) {
    && plan.targets != []
    && (forall i :: 0 <= i < |plan.targets| ==>
         plan.targets[i].account in ACCOUNTS && plan.targets[i].path.dir != plan.dir)
    && (forall i, j :: 0 <= i < j < |plan.targets| ==>
          plan.targets[i].account != plan.targets[j].account && plan.targets[i].path != plan.targets[j].path)
  }

  function EntryOf(sha: Bytes -> Digest, t: Target): Entry { Entry(t.account, t.path, sha(t.original)) }

  /** Each config is, whole, either the old or the new file. */
  ghost predicate Mix(plan: Plan, files: Files) {
    forall i :: 0 <= i < |plan.targets| ==>
                  plan.targets[i].path in files &&
                  files[plan.targets[i].path] in {Text(plan.targets[i].original), Text(plan.targets[i].updated)}
  }

  ghost predicate BackedUp(plan: Plan, files: Files, n: nat)
    requires n <= |plan.targets|
  {
    forall i :: 0 <= i < n ==>
                  BackupPath(plan.dir, plan.targets[i].account) in files &&
                  files[BackupPath(plan.dir, plan.targets[i].account)] == Text(plan.targets[i].original)
  }

  ghost predicate Entries(sha: Bytes -> Digest, plan: Plan, entries: seq<Entry>) {
    |entries| == |plan.targets| && forall i :: 0 <= i < |entries| ==> entries[i] == EntryOf(sha, plan.targets[i])
  }

  /** The manifest exists, describes the plan, and every original is in the backup. */
  ghost predicate Restorable(sha: Bytes -> Digest, plan: Plan, files: Files) {
    && ManifestPath(plan.dir) in files && files[ManifestPath(plan.dir)].Manifest?
    && Entries(sha, plan, files[ManifestPath(plan.dir)].entries)
    && BackedUp(plan, files, |plan.targets|)
  }

  /** What holds on disk at every moment of an apply or a rollback; without a manifest nothing was changed yet. */
  ghost predicate Safe(sha: Bytes -> Digest, plan: Plan, files: Files) {
    && Mix(plan, files)
    && if ManifestPath(plan.dir) in files then Restorable(sha, plan, files) else Restored(plan, files, |plan.targets|)
  }

  /** The bytes of every target are its config as the codec writes it. */
  ghost predicate Encoded(codec: Codec, plan: Plan) {
    forall i :: 0 <= i < |plan.targets| ==> plan.targets[i].updated == codec.render(plan.targets[i].config)
  }

  ghost predicate Restored(plan: Plan, files: Files, n: nat)
    requires n <= |plan.targets|
  {
    forall i :: 0 <= i < n ==>
                  plan.targets[i].path in files && files[plan.targets[i].path] == Text(plan.targets[i].original)
  }

  /** The file system, with everything it has looked like so far. */
  class Disk {
    const sha: Bytes -> Digest
    var files: Files
    var past: seq<Files>
    /** How many writes have reported a failure. */
    var failures: nat

    constructor (sha: Bytes -> Digest, files: Files)
      ensures this.sha == sha && this.files == files && past == [files] && failures == 0
    {
      this.sha, this.files, past, failures := sha, files, [files], 0;
    }

    /** Every state since `from` was safe for the plan: the process may have stopped at any of them. */
    ghost predicate AlwaysSafe(plan: Plan, from: nat)
      reads this
    {
      && 0 < |past| && from < |past| && past[|past| - 1] == files
      && forall k :: from <= k < |past| ==> Safe(sha, plan, past[k])
    }

    /** `_atomic_write`. */
    method Write(path: Path, content: Content, ghost plan: Plan, ghost from: nat) returns (ok: bool)
      requires AlwaysSafe(plan, from) && Safe(sha, plan, files[path := content])
      modifies this
      ensures AlwaysSafe(plan, from) && old(past) <= past
      ensures files == old(files) || files == old(files)[path := content]
      ensures ok ==> files == old(files)[path := content]
      ensures failures == old(failures) + if ok then 0 else 1
    {
      ok := *;
      if !ok { failures := failures + 1; }
      var reached: bool := *;
      if ok || reached {
        files := files[path := content];
        past := past + [files];
      }
    }
  }

  lemma NamesDiffer(plan: Plan, i: nat)
    requires PlanOk(plan) && i < |plan.targets|
    ensures BackupPath(plan.dir, plan.targets[i].account) != ManifestPath(plan.dir)
    ensures plan.targets[i].path != ManifestPath(plan.dir)
    ensures forall j :: 0 <= j < |plan.targets| ==>
                          plan.targets[j].path != BackupPath(plan.dir, plan.targets[i].account) &&
                          (j != i ==>
                             BackupPath(plan.dir, plan.targets[j].account) !=
                             BackupPath(plan.dir, plan.targets[i].account))
  {
    var account := plan.targets[i].account;
    assert account + ".json" != "manifest.json" by {
      assert |account| == 9 && |"manifest"| == 8;
    }
    forall j | 0 <= j < |plan.targets| && j != i
      ensures plan.targets[j].account + ".json" != account + ".json"
    {
      var other := plan.targets[j].account;
      assert other != account;
      assert (other + ".json")[..9] == other && (account + ".json")[..9] == account;
    }
  }

  /** Distinct supported accounts are at most as many as the supported accounts. */
  lemma {:induction false} AtMostAllAccounts(accounts: seq<Account>, pool: set<Account>)
    requires forall i :: 0 <= i < |accounts| ==> accounts[i] in pool
    requires forall i, j :: 0 <= i < j < |accounts| ==> accounts[i] != accounts[j]
    ensures |accounts| <= |pool|
    decreases |accounts|
  {
    if accounts != [] {
      var n := |accounts| - 1;
      AtMostAllAccounts(accounts[..n], pool - {accounts[n]});
    }
  }

  /** The manifest of a plan passes every check of `rollback` on its number of entries. */
  lemma EntriesAreFew(sha: Bytes -> Digest, plan: Plan, entries: seq<Entry>)
    requires PlanOk(plan) && Entries(sha, plan, entries)
    ensures 0 < |entries| <= |ACCOUNTS|
  {
    var accounts := seq(|entries|, i requires 0 <= i < |entries| => entries[i].account);
    AtMostAllAccounts(accounts, ACCOUNTS);
  }

  /**
   `rollback`: from any safe state with a manifest every original comes back byte for byte, unless a write fails;
   none of its own checks can refuse.
   */
  method Rollback(disk: Disk, dir: string, ghost plan: Plan, ghost from: nat) returns (ok: bool)
    requires PlanOk(plan) && plan.dir == dir && disk.AlwaysSafe(plan, from) && Restorable(disk.sha, plan, disk.files)
    modifies disk
    ensures disk.AlwaysSafe(plan, from) && old(disk.past) <= disk.past && Restorable(disk.sha, plan, disk.files)
    ensures ok ==> Restored(plan, disk.files, |plan.targets|) && disk.files[ManifestPath(dir)].status == RolledBack
    ensures disk.failures == old(disk.failures) + if ok then 0 else 1
  {
    ok := true;
    var entries := disk.files[ManifestPath(dir)].entries;
    EntriesAreFew(disk.sha, plan, entries);
    if entries == [] || |entries| > |ACCOUNTS| { return false; }
    var accounts: set<Account> := {};
    for i := 0 to |entries|
      invariant disk.AlwaysSafe(plan, from) && old(disk.past) <= disk.past && Restorable(disk.sha, plan, disk.files)
      invariant Restored(plan, disk.files, i) && disk.failures == old(disk.failures)
      invariant accounts == set j | 0 <= j < i :: entries[j].account
    {
      NamesDiffer(plan, i);
      if entries[i].account !in ACCOUNTS || entries[i].account in accounts { return false; }
      accounts := accounts + {entries[i].account};
      var backup := disk.files[BackupPath(dir, entries[i].account)];
      if !backup.Text? || disk.sha(backup.bytes) != entries[i].digest { return false; }
      ok := disk.Write(entries[i].source, backup, plan, from);
      if !ok { return; }
    }
    ok := disk.Write(ManifestPath(dir), Manifest(RolledBack, entries), plan, from);
  }

  datatype ApplyOutcome = Refused | Stopped | Undone | UndoFailed | PolicyApplied

  /** Every config is a supported account's own readable file with no risk, or the captured or the target one. */
  ghost predicate Readable(files: Files, codec: Codec, rateOk: string -> bool, p: Policy, legacy: Risk,
                     configs: seq<(Account, Path)>) {
    && configs != []
    && forall i :: 0 <= i < |configs| ==>
         && configs[i].0 in {"account-a", "account-b", "account-c", "account-d"}
         && configs[i].1 in files && files[configs[i].1].Text?
         && var c := codec.parse(files[configs[i].1].bytes);
            && c.Some? && c.value.account == configs[i].0
            && (c.value.risk.Some? ==>
                  && WellFormedRisk(c.value.risk.value, p.ceiling, rateOk)
                  && (c.value.risk.value == legacy || IsPolicyRisk(c.value.risk.value, legacy, p)))
  }

  /**
   All instruments and perhaps a default are capped, above zero and up to the ceiling, and both rates are readable.
   */
  ghost predicate WellFormedRisk(r: Risk, ceiling: real, rateOk: string -> bool) {
    && (forall k :: k in INSTRUMENTS ==> k in r.caps) && (forall k :: k in r.caps ==> k in INSTRUMENTS || k == "*")
    && (forall k :: k in r.caps ==> 0.0 < r.caps[k] <= ceiling)
    && rateOk(r.submitRate) && rateOk(r.modifyRate)
  }

  /** The risk the policy asks for: its two caps, and the captured rates each in its own place. */
  ghost predicate IsPolicyRisk(r: Risk, legacy: Risk, p: Policy) {
    && (forall k :: k in r.caps <==>
                      k in {"BNBUSDT-PERP.BINANCE", "BTCUSDT-PERP.BINANCE", "ETHUSDT-PERP.BINANCE",
                            "SOLUSDT-PERP.BINANCE", "*"})
    && (forall k :: k in r.caps ==> r.caps[k] == if k == "*" then p.defaultCap else p.targetCap)
    && r.submitRate == legacy.submitRate && r.modifyRate == legacy.modifyRate
  }

  /** The new bytes are the old config with the policy's risk and everything else as it was. */
  ghost predicate PolicyWritten(codec: Codec, legacy: Risk, p: Policy, original: Bytes, bytes: Bytes) {
    var was, now := codec.parse(original), codec.parse(bytes);
    && was.Some? && now.Some?
    && now.value.account == was.value.account && now.value.rest == was.value.rest
    && now.value.risk.Some? && IsPolicyRisk(now.value.risk.value, legacy, p)
  }

  lemma TargetIsPolicyRisk(r: Risk, legacy: Risk, p: Policy)
    ensures r == TargetRisk(legacy, p) <==> IsPolicyRisk(r, legacy, p)
  {
    var t := TargetRisk(legacy, p);
    assert t.caps.Keys == INSTRUMENTS + {DEFAULT_KEY};
    if IsPolicyRisk(r, legacy, p) { assert r.caps == t.caps; }
  }

  /** What the planned bytes mean once they are written. */
  lemma UpdatedIsPolicyWritten(codec: Codec, rateOk: string -> bool, p: Policy, legacy: Risk, account: Account,
                               original: Bytes)
    requires Faithful(codec) && Updated(codec, rateOk, p, legacy, account, original).Some?
    ensures PolicyWritten(codec, legacy, p, original, Updated(codec, rateOk, p, legacy, account, original).value)
  {
    var c := UpdatedConfig(codec, rateOk, p, legacy, account, original).value;
    assert codec.parse(codec.render(c)) == Some(c);
    TargetIsPolicyRisk(TargetRisk(legacy, p), legacy, p);
  }

  /** A config is accepted exactly when it is its account's own and carries no other risk. */
  lemma AcceptedExactly(codec: Codec, rateOk: string -> bool, p: Policy, legacy: Risk, account: Account,
                        original: Bytes)
    ensures var c := codec.parse(original);
            UpdatedConfig(codec, rateOk, p, legacy, account, original).Some? <==>
              && c.Some? && c.value.account == account
              && (c.value.risk.Some? ==>
                    && WellFormedRisk(c.value.risk.value, p.ceiling, rateOk)
                    && (c.value.risk.value == legacy || IsPolicyRisk(c.value.risk.value, legacy, p)))
  {
    var c := codec.parse(original);
    if c.Some? && c.value.risk.Some? {
      TargetIsPolicyRisk(c.value.risk.value, legacy, p);
      assert RiskValid(c.value.risk.value, p.ceiling, true, rateOk) <==>
          WellFormedRisk(c.value.risk.value, p.ceiling, rateOk);
    }
  }

  predicate UsesDirectory(files: Files, dir: string) { exists path :: path in files && path.dir == dir }

  /** The reading pass of `apply_policy`: identities and risks are checked before anything is written. */
  method ReadConfigs(disk: Disk, codec: Codec, rateOk: string -> bool, p: Policy, legacy: Risk,
                     configs: seq<(Account, Path)>, dir: string)
    returns (plan: Option<Plan>)
    requires forall i, j :: 0 <= i < j < |configs| ==> configs[i].0 != configs[j].0
    requires !UsesDirectory(disk.files, dir)
    ensures plan.Some? <==> Readable(disk.files, codec, rateOk, p, legacy, configs)
    ensures plan.Some? ==>
              && PlanOk(plan.value) && plan.value.dir == dir && |plan.value.targets| == |configs|
              && Restored(plan.value, disk.files, |configs|) && Mix(plan.value, disk.files)
              && forall i :: 0 <= i < |configs| ==>
                   var t := plan.value.targets[i];
                   && t.account == configs[i].0 && t.path == configs[i].1 && t.updated == codec.render(t.config)
                   && Some(t.updated) == Updated(codec, rateOk, p, legacy, t.account, t.original)
  {
    plan := None;
    if configs == [] { return; }
    var targets: seq<Target> := [];
    for i := 0 to |configs|
      invariant |targets| == i
      invariant forall k :: 0 <= k < i ==>
                  && targets[k].account == configs[k].0 && targets[k].path == configs[k].1 &&
                     targets[k].account in ACCOUNTS
                  && targets[k].path in disk.files && disk.files[targets[k].path] == Text(targets[k].original)
                  && targets[k].updated == codec.render(targets[k].config)
                  && Some(targets[k].updated) == Updated(codec, rateOk, p, legacy, targets[k].account,
                                                         targets[k].original)
    {
      var (account, path) := configs[i];
      if account !in ACCOUNTS || path !in disk.files || !disk.files[path].Text? { return; }
      var original := disk.files[path].bytes;
      AcceptedExactly(codec, rateOk, p, legacy, account, original);
      var config := UpdatedConfig(codec, rateOk, p, legacy, account, original);
      if config.None? { return; }
      targets := targets + [Target(account, path, original, config.value, codec.render(config.value))];
    }
    OneAccountPerPath(codec, rateOk, p, legacy, targets, disk.files);
    plan := Some(Plan(targets, dir));
  }

  /** A file names one account, so configs of different accounts are different files. */
  lemma OneAccountPerPath(codec: Codec, rateOk: string -> bool, p: Policy, legacy: Risk, targets: seq<Target>,
                          files: Files)
    requires forall k :: 0 <= k < |targets| ==>
               && targets[k].path in files && files[targets[k].path] == Text(targets[k].original)
               && Updated(codec, rateOk, p, legacy, targets[k].account, targets[k].original).Some?
    requires forall i, j :: 0 <= i < j < |targets| ==> targets[i].account != targets[j].account
    ensures forall i, j :: 0 <= i < j < |targets| ==> targets[i].path != targets[j].path
  {
  }

  /** Copies of the originals, then the prepared manifest. */
  method WriteBackup(disk: Disk, plan: Plan, ghost from: nat) returns (ok: bool)
    requires PlanOk(plan) && disk.AlwaysSafe(plan, from) && Restored(plan, disk.files, |plan.targets|)
    requires ManifestPath(plan.dir) !in disk.files
    modifies disk
    ensures disk.AlwaysSafe(plan, from) && old(disk.past) <= disk.past && Restored(plan, disk.files, |plan.targets|)
    ensures ok ==> Restorable(disk.sha, plan, disk.files) && disk.files[ManifestPath(plan.dir)].status == Prepared
    ensures disk.failures == old(disk.failures) + if ok then 0 else 1
  {
    var entries: seq<Entry> := [];
    for i := 0 to |plan.targets|
      invariant disk.AlwaysSafe(plan, from) && old(disk.past) <= disk.past && Restored(plan, disk.files, |plan.targets|)
      invariant ManifestPath(plan.dir) !in disk.files && BackedUp(plan, disk.files, i) &&
                disk.failures == old(disk.failures)
      invariant |entries| == i && forall k :: 0 <= k < i ==> entries[k] == EntryOf(disk.sha, plan.targets[k])
    {
      NamesDiffer(plan, i);
      var t := plan.targets[i];
      ok := disk.Write(BackupPath(plan.dir, t.account), Text(t.original), plan, from);
      if !ok { return; }
      entries := entries + [EntryOf(disk.sha, t)];
    }
    forall i | 0 <= i < |plan.targets| ensures plan.targets[i].path != ManifestPath(plan.dir) { NamesDiffer(plan, i); }
    forall i | 0 <= i < |plan.targets| ensures BackupPath(plan.dir, plan.targets[i].account) != ManifestPath(plan.dir) {
      NamesDiffer(plan, i);
    }
    ok := disk.Write(ManifestPath(plan.dir), Manifest(Prepared, entries), plan, from);
  }

  /**
   The guarded part of `apply_policy`: the new configs, their re-check by normalized hash, the applied manifest.
   With a codec that reads back what it writes, the re-check never fails.
   */
  method WriteConfigs(disk: Disk, plan: Plan, codec: Codec, normalized: Config -> Digest, ghost from: nat)
    returns (ok: bool)
    requires PlanOk(plan) && disk.AlwaysSafe(plan, from) && Restorable(disk.sha, plan, disk.files) &&
             Encoded(codec, plan)
    modifies disk
    ensures Faithful(codec) && !ok ==> disk.failures > old(disk.failures)
    ensures disk.failures >= old(disk.failures) && (ok ==> disk.failures == old(disk.failures))
    ensures disk.AlwaysSafe(plan, from) && old(disk.past) <= disk.past && Restorable(disk.sha, plan, disk.files)
    ensures ok ==>
              && disk.files[ManifestPath(plan.dir)].status == Applied
              && forall k :: 0 <= k < |plan.targets| ==>
                   plan.targets[k].path in disk.files &&
                       disk.files[plan.targets[k].path] == Text(plan.targets[k].updated)
  {
    for i := 0 to |plan.targets|
      invariant disk.AlwaysSafe(plan, from) && old(disk.past) <= disk.past && Restorable(disk.sha, plan, disk.files)
      invariant forall k :: 0 <= k < i ==> disk.files[plan.targets[k].path] == Text(plan.targets[k].updated)
      invariant disk.failures == old(disk.failures)
    {
      forall j | 0 <= j < |plan.targets|
        ensures plan.targets[i].path != BackupPath(plan.dir, plan.targets[j].account)
      {
        NamesDiffer(plan, j);
      }
      NamesDiffer(plan, i);
      ok := disk.Write(plan.targets[i].path, Text(plan.targets[i].updated), plan, from);
      if !ok { return; }
    }
    forall i | 0 <= i < |plan.targets|
      ensures plan.targets[i].path != ManifestPath(plan.dir)
      ensures BackupPath(plan.dir, plan.targets[i].account) != ManifestPath(plan.dir)
    {
      NamesDiffer(plan, i);
    }
    for i := 0 to |plan.targets|
      invariant forall k :: 0 <= k < i ==> codec.parse(plan.targets[k].updated).Some?
    {
      var current := codec.parse(disk.files[plan.targets[i].path].bytes);
      if current.None? || normalized(current.value) != normalized(plan.targets[i].config) { return false; }
    }
    var entries := disk.files[ManifestPath(plan.dir)].entries;
    ok := disk.Write(ManifestPath(plan.dir), Manifest(Applied, entries), plan, from);
  }

  /**
   `apply_policy`.  At every moment each config is a whole old or whole new file, and from the moment the
   manifest exists the originals can be restored; a failure after that moment is rolled back.
   */
  method ApplyPolicy(disk: Disk, codec: Codec, normalized: Config -> Digest, rateOk: string -> bool, p: Policy,
                     legacy: Risk, configs: seq<(Account, Path)>, dir: string)
    returns (r: ApplyOutcome, ghost plan: Plan)
    requires disk.past != [] && disk.past[|disk.past| - 1] == disk.files
    requires forall i, j :: 0 <= i < j < |configs| ==> configs[i].0 != configs[j].0
    modifies disk
    ensures r == Refused <==>
              !Readable(old(disk.files), codec, rateOk, p, legacy, configs) ||
              UsesDirectory(old(disk.files), dir)
    ensures r == Refused ==> disk.files == old(disk.files) && disk.past == old(disk.past)
    ensures r != Refused ==>
              && PlanOk(plan) && plan.dir == dir && |plan.targets| == |configs| &&
                 Restored(plan, old(disk.files), |configs|)
              && disk.AlwaysSafe(plan, |old(disk.past)| - 1) && old(disk.past) <= disk.past
              && forall i :: 0 <= i < |configs| ==>
                   && plan.targets[i].account == configs[i].0 && plan.targets[i].path == configs[i].1
                   && Some(plan.targets[i].updated) ==
                        Updated(codec, rateOk, p, legacy, plan.targets[i].account, plan.targets[i].original)
    ensures r == PolicyApplied ==>
              forall i :: 0 <= i < |configs| ==>
                plan.targets[i].path in disk.files && disk.files[plan.targets[i].path] == Text(plan.targets[i].updated)
    ensures r == PolicyApplied && Faithful(codec) ==>
              forall i :: 0 <= i < |configs| ==>
                && configs[i].1 in old(disk.files) && old(disk.files)[configs[i].1].Text?
                && configs[i].1 in disk.files && disk.files[configs[i].1].Text?
                && PolicyWritten(codec, legacy, p, old(disk.files)[configs[i].1].bytes, disk.files[configs[i].1].bytes)
    ensures r == Stopped || r == Undone ==> Restored(plan, disk.files, |configs|)
    ensures r == UndoFailed ==> Restorable(disk.sha, plan, disk.files)
    ensures r == PolicyApplied ==> disk.failures == old(disk.failures)
    ensures r in {Stopped, UndoFailed} || (r == Undone && Faithful(codec)) ==> disk.failures > old(disk.failures)
  {
    r, plan := Refused, Plan([], dir);
    if UsesDirectory(disk.files, dir) { return; }
    var read := ReadConfigs(disk, codec, rateOk, p, legacy, configs, dir);
    if read.None? { return; }
    plan := read.value;
    ghost var from := |disk.past| - 1;
    var ok := WriteBackup(disk, read.value, from);
    if !ok { return Stopped, plan; }
    ok := WriteConfigs(disk, read.value, codec, normalized, from);
    if ok {
      if Faithful(codec) {
        forall i | 0 <= i < |configs|
          ensures PolicyWritten(codec, legacy, p, plan.targets[i].original, plan.targets[i].updated)
        {
          UpdatedIsPolicyWritten(codec, rateOk, p, legacy, plan.targets[i].account, plan.targets[i].original);
        }
      }
      return PolicyApplied, plan;
    }
    ok := Rollback(disk, dir, plan, from);
    r := if ok then Undone else UndoFailed;
  }

  /** What became of an apply that was stopped somewhere, and of the rollback after it. */
  datatype Recovery = NeverStarted | NothingChanged | RollbackDone | RollbackFailed

  /**
   Apply, stop at any moment and run `rollback` in a new process if the manifest exists by then: every config has the
   bytes it had before the apply, unless one of the rollback's own writes failed; that is the only way it can fail.
   */
  method StopAnywhereThenRollback(sha: Bytes -> Digest, files: Files, codec: Codec, normalized: Config -> Digest,
                                  rateOk: string -> bool, p: Policy, legacy: Risk, configs: seq<(Account, Path)>,
                                  dir: string)
    returns (r: Recovery, after: Files, failedWrites: nat)
    requires forall i, j :: 0 <= i < j < |configs| ==> configs[i].0 != configs[j].0
    ensures r == NeverStarted ==> after == files
    ensures r in {NothingChanged, RollbackDone} ==>
              forall i :: 0 <= i < |configs| ==>
                configs[i].1 in files && configs[i].1 in after && after[configs[i].1] == files[configs[i].1]
    ensures r == RollbackFailed <==> failedWrites > 0
    ensures r == NeverStarted <==> !Readable(files, codec, rateOk, p, legacy, configs) || UsesDirectory(files, dir)
    ensures r == NothingChanged ==> ManifestPath(dir) !in after
    ensures r == RollbackDone ==>
              ManifestPath(dir) in after && after[ManifestPath(dir)].Manifest? &&
                  after[ManifestPath(dir)].status == RolledBack
  {
    r, after, failedWrites := NeverStarted, files, 0;
    var disk := new Disk(sha, files);
    var applied, plan := ApplyPolicy(disk, codec, normalized, rateOk, p, legacy, configs, dir);
    if applied == Refused { return; }
    var k :| 0 <= k < |disk.past|;
    after := disk.past[k];
    assert Safe(sha, plan, disk.past[k]);
    assert Restored(plan, files, |configs|);
    if ManifestPath(dir) !in disk.past[k] { return NothingChanged, after, 0; }
    var restarted := new Disk(sha, disk.past[k]);
    var ok := Rollback(restarted, dir, plan, 0);
    after, failedWrites := restarted.files, restarted.failures;
    r := if ok then RollbackDone else RollbackFailed;
    assert ok ==> Restored(plan, after, |configs|);
  }
}
