/** Poll rounds of one sensor against the update server, over whole runs. What the server has on offer may
    change from round to round in any way: by publishing, overwriting, deleting or pinning. */
module Fleet {
  import opened Tables
  import opened Schema
  import opened Archive
  import opened Versions
  import opened NetworkAgents
  import opened Sensor
  import opened SensorSafety
  import opened SensorOutcome
  import L = ObjectLocation
  import D = DbUtil

  /** The packages the server would offer a device of this tenant. */
  datatype Candidates = Candidates(tenant: nat, software: Package, rules: Package, threatIntel: Package)

  /** One poll: what the server answers from (nothing when it cannot be reached or has no manifest), whether the record
      can be opened, what the downloads bring (nothing when they fail), and how the two installs are disturbed. */
  datatype Round = Round(answer: Option<Candidates>, opens: bool,
                         software: Option<Bytes>, rules: Option<Bytes>, threatIntel: Option<Bytes>,
                         softwareFaults: Faults, rulesFaults: Faults)

  datatype Outcome =
    | NotOffered
    | NotDownloaded
    | RefusedByLock
    | Failed
    | Succeeded

  predicate Polls(s: State, r: Round) {
    r.answer.Some? && r.opens && s.record.Readable?
  }

  function SoftwareOffer(s: State, r: Round): Option<Offer> {
    if Polls(s, r) then
      OfferOf(r.answer.value.tenant, r.answer.value.software, s.record.installed.software, "software", "hndr-sw")
    else None
  }

  function RulesOffer(s: State, r: Round): Option<Offer> {
    if Polls(s, r) then OfferOfRules(r.answer.value.tenant, r.answer.value.rules, s.record.installed.rules) else None
  }

  function ThreatIntelOffer(s: State, r: Round): Option<Offer> {
    if Polls(s, r) then
      OfferOf(r.answer.value.tenant, r.answer.value.threatIntel, s.record.installed.threatIntel, "threatintel",
        "threatintel")
    else None
  }

  function CallFor(offer: Offer, content: Bytes): Call {
    Call(content, offer.package.version, offer.package.digest, offer.url)
  }

  function OutcomeOf(s: State, f: Faults, ok: bool): Outcome {
    if ok then Succeeded else if Refused(s, f) then RefusedByLock else Failed
  }

  function SoftwareStep(cfg: Config, s: State, offer: Option<Offer>, content: Option<Bytes>,
      f: Faults): (State, Outcome) {
    if offer.None? then (s, NotOffered)
    else if content.None? then (s, NotDownloaded)
    else
      var (after, ok) := Software(cfg, s, CallFor(offer.value, content.value), f);
      (after, OutcomeOf(s, f, ok))
  }

  function RulesStep(cfg: Config, s: State, offer: Option<Offer>, content: Option<Bytes>, f: Faults): (State, Outcome) {
    if offer.None? then (s, NotOffered)
    else if content.None? then (s, NotDownloaded)
    else
      var (after, ok) := Rules(cfg, s, CallFor(offer.value, content.value), f);
      (after, OutcomeOf(s, f, ok))
  }

  /** The threat intelligence installer answers success and does nothing. */
  function ThreatIntelStep(offer: Option<Offer>, content: Option<Bytes>): Outcome {
    if offer.None? then NotOffered else if content.None? then NotDownloaded else Succeeded
  }

  datatype Polled = Polled(state: State, software: Outcome, rules: Outcome, threatIntel: Outcome)

  /** One round: the manifest is made from the record as it is at the start; software goes first, then rules, then
      threat intelligence. */
  function Poll(cfg: Config, s: State, r: Round): Polled {
    var (mid, software) := SoftwareStep(cfg, s, SoftwareOffer(s, r), r.software, r.softwareFaults);
    var (after, rules) := RulesStep(cfg, mid, RulesOffer(s, r), r.rules, r.rulesFaults);
    Polled(after, software, rules, ThreatIntelStep(ThreatIntelOffer(s, r), r.threatIntel))
  }

  /** A round is a round against the server: with the candidates of the server's tables, the sensor sees the
      offers of the manifest that the server makes from the sensor's record. */
  lemma RoundSeesManifest(db: Db, key: string, header: string, s: State, r: Round)
    requires Consistent(db) && Polls(s, r)
    requires var tenant := r.answer.value.tenant;
      && Updates(db, key, header, tenant, s.record.installed).1.Manifest?
      && header in db.devices && SoftwareCandidate(db, header) == Some(r.answer.value.software)
      && LatestRules(db.rules, tenant) == Some(r.answer.value.rules)
        && Latest(db.threatIntel) == Some(r.answer.value.threatIntel)
    ensures Updates(db, key, header, r.answer.value.tenant, s.record.installed).1
      == Manifest(SoftwareOffer(s, r), RulesOffer(s, r), ThreatIntelOffer(s, r))
  {
    hide Consistent, OfferOf, OfferOfRules, D.PutReport;
    ConsistentDeviceExists(db, key, header);
    ManifestColumns(db, D.InsertVersions(db, header, r.answer.value.tenant, VersionsOf(s.record.installed)).0,
      header, r.answer.value.tenant);
  }

  // ----- The program ----------------------------------------------------------------

  /** The statuses sent to the server; empty text for what was not offered. */
  function StatusText(o: Outcome): string {
    match o
    case NotOffered => ""
    case Succeeded => "SUCCESS"
    case _ => "FAILED"
  }

  /** A round as the program takes it: the status to send, if there is one. */
  method CheckUpdates(updater: Updater, r: Round) returns (sent: Option<(string, string, string)>)
    modifies updater, updater.fs
    ensures updater.Snapshot() == Poll(updater.cfg, old(updater.Snapshot()), r).state
    ensures var p := Poll(updater.cfg, old(updater.Snapshot()), r);
      sent == if p.software == NotOffered && p.rules == NotOffered && p.threatIntel == NotOffered then None
              else Some((StatusText(p.software), StatusText(p.rules), StatusText(p.threatIntel)))
  {
    hide Software, Rules, OfferOf, OfferOfRules;
    sent := None;
    if r.answer.None? || !r.opens || updater.record.Unreadable? {
      return;
    }
    var software := SoftwareOffer(updater.Snapshot(), r);
    var rules := RulesOffer(updater.Snapshot(), r);
    var threatIntel := ThreatIntelOffer(updater.Snapshot(), r);
    var softwareStatus, rulesStatus, threatIntelStatus := "", "", "";
    if software.Some? {
      softwareStatus := "FAILED";
      if r.software.Some? {
        var ok := updater.UpateSoftwareNow(CallFor(software.value, r.software.value), r.softwareFaults);
        if ok {
          softwareStatus := "SUCCESS";
        }
      }
    }
    if rules.Some? {
      rulesStatus := "FAILED";
      if r.rules.Some? {
        var ok := updater.UpateRulesNow(CallFor(rules.value, r.rules.value), r.rulesFaults);
        if ok {
          rulesStatus := "SUCCESS";
        }
      }
    }
    if threatIntel.Some? {
      threatIntelStatus := if r.threatIntel.Some? then "SUCCESS" else "FAILED";
    }
    if software.Some? || rules.Some? || threatIntel.Some? {
      sent := Some((softwareStatus, rulesStatus, threatIntelStatus));
    }
  }

  // ----- One round ------------------------------------------------------------------

  function Entry(p: Package): Installed {
    Installed(p.version, p.digest)
  }

  lemma SoftwareStepEffects(cfg: Config, s: State, offer: Option<Offer>, content: Option<Bytes>, f: Faults)
    ensures var (after, o) := SoftwareStep(cfg, s, offer, content, f);
      && (o == NotOffered <==> offer.None?)
      && (if o == Succeeded then
            s.record.Readable? && after.record == Readable(s.record.installed.(software := Entry(offer.value.package)))
          else after.record == s.record || after.record == Unreadable)
      && (s.record.Unreadable? || s.symlink.None? ==> o != Succeeded)
      && (s.symlink.None? ==> after.symlink.None? && after.record == s.record)
      && (o == RefusedByLock ==> s.locked && after.record == s.record)
      && (offer.Some? && content.Some? && !f.lockRemove ==> !after.locked)
      && (offer.None? || content.None? ==> after == s)
  {
    hide Software;
    if offer.Some? && content.Some? {
      SoftwareForRuns(cfg, s, CallFor(offer.value, content.value), f);
    }
  }

  lemma RulesStepEffects(cfg: Config, s: State, offer: Option<Offer>, content: Option<Bytes>, f: Faults)
    ensures var (after, o) := RulesStep(cfg, s, offer, content, f);
      && (o == NotOffered <==> offer.None?)
      && (if o == Succeeded then
            s.record.Readable? && after.record == Readable(s.record.installed.(rules := Entry(offer.value.package)))
          else after.record == s.record || after.record == Unreadable)
      && (s.record.Unreadable? || s.symlink.None? ==> o != Succeeded)
      && after.symlink == s.symlink
      && (s.symlink.None? ==> after.record == s.record)
      && (o == RefusedByLock ==> s.locked && after.record == s.record)
      && (offer.Some? && content.Some? && !f.lockRemove ==> !after.locked)
      && (offer.None? || content.None? ==> after == s)
  {
    hide Rules;
    if offer.Some? && content.Some? {
      RulesForRuns(cfg, s, CallFor(offer.value, content.value), f);
    }
  }

  /** The record after a round, if it can still be read: the software and rules entries are those of the packages
      installed in the round, or the old ones. */
  lemma PollRecord(cfg: Config, s: State, r: Round)
    ensures var p := Poll(cfg, s, r);
      && (p.state.record.Readable? ==> s.record.Readable?)
      && (p.state.record.Readable? ==>
            p.state.record.installed == Reported(
              if p.software == Succeeded then Entry(r.answer.value.software) else s.record.installed.software,
              if p.rules == Succeeded then Entry(r.answer.value.rules) else s.record.installed.rules,
              s.record.installed.threatIntel))
      && (p.software != NotOffered <==> SoftwareOffer(s, r).Some?)
      && (p.rules != NotOffered <==> RulesOffer(s, r).Some?)
  {
    hide SoftwareStep, RulesStep, IsUpdateNeeded;
    var mid := SoftwareStep(cfg, s, SoftwareOffer(s, r), r.software, r.softwareFaults).0;
    SoftwareStepEffects(cfg, s, SoftwareOffer(s, r), r.software, r.softwareFaults);
    RulesStepEffects(cfg, mid, RulesOffer(s, r), r.rules, r.rulesFaults);
  }

  /** A sensor whose record cannot be read, or whose symlink is gone, stays so; its record does not change any more. */
  lemma PollStuck(cfg: Config, s: State, r: Round)
    ensures s.record.Unreadable? ==> Poll(cfg, s, r) == Polled(s, NotOffered, NotOffered, NotOffered)
    ensures s.symlink.None? ==> Poll(cfg, s, r).state.symlink.None? && Poll(cfg, s, r).state.record == s.record
  {
    hide SoftwareStep, RulesStep, IsUpdateNeeded;
    var mid := SoftwareStep(cfg, s, SoftwareOffer(s, r), r.software, r.softwareFaults).0;
    SoftwareStepEffects(cfg, s, SoftwareOffer(s, r), r.software, r.softwareFaults);
    RulesStepEffects(cfg, mid, RulesOffer(s, r), r.rules, r.rulesFaults);
  }

  /** A round that installs both puts the rules into the folder the software has just been unpacked in: the manifest
      is read once, but the second install looks at the symlink again. */
  lemma RulesFollowSoftware(cfg: Config, s: State, r: Round)
    requires Poll(cfg, s, r).software == Succeeded && Poll(cfg, s, r).rules == Succeeded
    ensures var after := Poll(cfg, s, r).state;
      && s.symlink.Some? && after.symlink == Some(FolderToDeploy(cfg, s.symlink.value))
      && r.rules.Some? && RulesOffer(s, r).Some?
      && Unpacked(after.disk, RulesDir(cfg, after.symlink.value), cfg.unpack(r.rules.value),
                  ScratchPath(cfg, CallFor(RulesOffer(s, r).value, r.rules.value)))
  {
    hide Software, Rules, SoftwareOffer, RulesOffer, FolderToDeploy, Unpacked, ScratchPath;
    var mid := Software(cfg, s, CallFor(SoftwareOffer(s, r).value, r.software.value), r.softwareFaults).0;
    SymlinkLeadsToUnpacked(cfg, s, CallFor(SoftwareOffer(s, r).value, r.software.value), r.softwareFaults);
    RulesForRuns(cfg, mid, CallFor(RulesOffer(s, r).value, r.rules.value), r.rulesFaults);
    RulesAreUnpacked(cfg, mid, CallFor(RulesOffer(s, r).value, r.rules.value), r.rulesFaults);
  }

  /** What the server is told is what happened: nothing of what was not offered, SUCCESS of an install that ended
      so, and FAILED of every other, one that was never downloaded included. */
  lemma StatusesTell(cfg: Config, s: State, r: Round)
    ensures var p := Poll(cfg, s, r);
      var mid := SoftwareStep(cfg, s, SoftwareOffer(s, r), r.software, r.softwareFaults).0;
      var software, rules := SoftwareOffer(s, r), RulesOffer(s, r);
      && StatusText(p.software) == (
        if software.None? then ""
        else if r.software.Some? && Software(cfg, s, CallFor(software.value, r.software.value), r.softwareFaults).1
        then "SUCCESS" else "FAILED")
      && StatusText(p.rules) == (
        if rules.None? then ""
        else if r.rules.Some? && Rules(cfg, mid, CallFor(rules.value, r.rules.value), r.rulesFaults).1
        then "SUCCESS" else "FAILED")
      && StatusText(p.threatIntel) == (
        if ThreatIntelOffer(s, r).None? then "" else if r.threatIntel.Some? then "SUCCESS" else "FAILED")
  {
    hide Software, Rules, OfferOf, OfferOfRules;
  }

  /** And of a round that reported SUCCESS for both, the record says so. */
  lemma SuccessIsRecorded(cfg: Config, s: State, r: Round)
    requires StatusText(Poll(cfg, s, r).software) == "SUCCESS" && StatusText(Poll(cfg, s, r).rules) == "SUCCESS"
    ensures r.answer.Some? && s.record.Readable?
    ensures Poll(cfg, s, r).state.record
      == Readable(Reported(Entry(r.answer.value.software), Entry(r.answer.value.rules), s.record.installed.threatIntel))
  {
    hide SoftwareStep, RulesStep, IsUpdateNeeded;
    var mid := SoftwareStep(cfg, s, SoftwareOffer(s, r), r.software, r.softwareFaults).0;
    SoftwareStepEffects(cfg, s, SoftwareOffer(s, r), r.software, r.softwareFaults);
    RulesStepEffects(cfg, mid, RulesOffer(s, r), r.rules, r.rulesFaults);
  }

  // ----- One good round -------------------------------------------------------------

  /** The software can be installed on the sensor as it is. */
  predicate Installable(cfg: Config, s: State, call: Call) {
    var at := ScratchPath(cfg, call);
    && !s.locked && PlainName(L.AfterLastSlash(call.url)) && CanCreate(s.disk, at)
    && Sha256(call.content) == call.digest
    && s.symlink.Some? && s.symlink.value in s.disk.dirs && OfThePair(cfg, s.symlink.value)
    && var folder := Other(cfg, s.symlink.value);
    Extract(CleanSoftware(Write(s.disk, at, call.content), folder, NO_FAULTS).0, folder, cfg.unpack(call.content),
            NoFault).1
  }

  /** One undisturbed round that offers software which can be installed is enough: it is recorded, and no later
      round that leads to the same package offers it again. */
  lemma OneGoodRoundSettles(cfg: Config, s: State, r: Round, later: seq<Round>)
    requires Layout(cfg) && SoftwareOffer(s, r).Some? && r.software.Some?
    requires r.softwareFaults == NO_FAULTS && r.rulesFaults == NO_FAULTS
    requires Installable(cfg, s, CallFor(SoftwareOffer(s, r).value, r.software.value))
    requires r.answer.value.software.version != "" && FixedSoftware(later, r.answer.value.software)
    ensures var p := Poll(cfg, s, r);
      && p.software == Succeeded
      && p.state.record.Readable? && p.state.record.installed.software == Entry(r.answer.value.software)
      && forall n: nat | 0 < n <= |later| :: Last(cfg, p.state, later[..n]).software == NotOffered
  {
    hide Software, Rules, IsUpdateNeeded, Last;
    var call := CallFor(SoftwareOffer(s, r).value, r.software.value);
    InstallableSucceeds(cfg, s, call);
    PollRecord(cfg, s, r);
    RulesRecordKept(cfg, s, r);
    forall n: nat | 0 < n <= |later|
      ensures Last(cfg, Poll(cfg, s, r).state, later[..n]).software == NotOffered
    {
      SettledStays(cfg, Poll(cfg, s, r).state, later, n, r.answer.value.software);
    }
  }

  lemma InstallableSucceeds(cfg: Config, s: State, call: Call)
    requires Layout(cfg) && Installable(cfg, s, call) && s.record.Readable?
    ensures Software(cfg, s, call, NO_FAULTS).1
  {
    hide Software, Layout, Extract, CleanSoftware, CanCreate, FolderToDeploy, EqualFold;
    SucceedsIff(cfg, s, call);
    DeploysToOther(cfg, s.symlink.value);
    NotRoot(cfg, s.symlink.value);
  }

  lemma NotRoot(cfg: Config, folder: Path)
    requires Layout(cfg) && OfThePair(cfg, folder)
    ensures folder != []
  {
  }

  /** A rules install that nothing disturbs never loses the record. */
  lemma RulesRecordKept(cfg: Config, s: State, r: Round)
    requires r.rulesFaults == NO_FAULTS && Poll(cfg, s, r).software == Succeeded
    ensures Poll(cfg, s, r).state.record.Readable?
  {
    hide Software, Rules, OfferOf, OfferOfRules, ReachesRestart;
    var mid := SoftwareStep(cfg, s, SoftwareOffer(s, r), r.software, r.softwareFaults).0;
    SoftwareStepEffects(cfg, s, SoftwareOffer(s, r), r.software, r.softwareFaults);
    RulesStepEffects(cfg, mid, RulesOffer(s, r), r.rules, r.rulesFaults);
    if RulesOffer(s, r).Some? && r.rules.Some? {
      RulesOutcome(cfg, mid, CallFor(RulesOffer(s, r).value, r.rules.value), r.rulesFaults);
    }
  }

  lemma {:induction false} SettledStays(cfg: Config, s: State, rounds: seq<Round>, n: nat, p: Package)
    requires p.version != "" && FixedSoftware(rounds, p) && SettledOn(s.record, p) && n <= |rounds|
    ensures SettledOn(After(cfg, s, rounds[..n]).record, p)
    ensures n > 0 ==> Last(cfg, s, rounds[..n]).software == NotOffered
    decreases n
  {
    hide Poll, SettledOn;
    if n > 0 {
      SettledStays(cfg, s, rounds, n - 1, p);
      assert rounds[..n][..n - 1] == rounds[..n - 1];
      assert rounds[n - 1] in rounds;
      SoftwareSettles(cfg, After(cfg, s, rounds[..n - 1]), rounds[n - 1], p);
    }
  }

  /** The same for rules, in a round that offers no software. */
  lemma OneGoodRulesRoundSettles(cfg: Config, s: State, r: Round, later: seq<Round>)
    requires SoftwareOffer(s, r).None? && RulesOffer(s, r).Some? && r.rules.Some? && r.rulesFaults == NO_FAULTS
    requires var call := CallFor(RulesOffer(s, r).value, r.rules.value);
      && !s.locked && PlainName(L.AfterLastSlash(call.url)) && CanCreate(s.disk, ScratchPath(cfg, call))
      && Sha256(call.content) == call.digest && s.symlink.Some? && s.symlink.value in s.disk.dirs
      && NothingBlocks(cfg, Write(s.disk, ScratchPath(cfg, call), call.content), s.symlink.value)
      && UnpackedRules(cfg, s, call, NO_FAULTS).1
    requires r.answer.value.rules.version != "" && FixedRules(later, r.answer.value.rules)
    ensures var p := Poll(cfg, s, r);
      && p.rules == Succeeded
      && p.state.record.Readable? && p.state.record.installed.rules == Entry(r.answer.value.rules)
      && forall n: nat | 0 < n <= |later| :: Last(cfg, p.state, later[..n]).rules == NotOffered
  {
    hide Rules, IsUpdateNeeded, Last, CleanRules, RulesDir, Extract, NothingBlocks, Software, CanCreate;
    RulesSucceedIff(cfg, s, CallFor(RulesOffer(s, r).value, r.rules.value));
    RulesStepEffects(cfg, s, RulesOffer(s, r), r.rules, r.rulesFaults);
    forall n: nat | 0 < n <= |later|
      ensures Last(cfg, Poll(cfg, s, r).state, later[..n]).rules == NotOffered
    {
      SettledRulesStay(cfg, Poll(cfg, s, r).state, later, n, r.answer.value.rules);
    }
  }

  lemma {:induction false} SettledRulesStay(cfg: Config, s: State, rounds: seq<Round>, n: nat, p: Package)
    requires p.version != "" && FixedRules(rounds, p) && SettledOnRules(s.record, p) && n <= |rounds|
    ensures SettledOnRules(After(cfg, s, rounds[..n]).record, p)
    ensures n > 0 ==> Last(cfg, s, rounds[..n]).rules == NotOffered
    decreases n
  {
    hide Poll, SettledOnRules;
    if n > 0 {
      SettledRulesStay(cfg, s, rounds, n - 1, p);
      assert rounds[..n][..n - 1] == rounds[..n - 1];
      assert rounds[n - 1] in rounds;
      RulesSettle(cfg, After(cfg, s, rounds[..n - 1]), rounds[n - 1], p);
    }
  }

  // ----- Runs -----------------------------------------------------------------------

  function After(cfg: Config, s: State, rounds: seq<Round>): State
    decreases |rounds|, 1
  {
    if rounds == [] then s else Last(cfg, s, rounds).state
  }

  /** What the last round of a run does. */
  function Last(cfg: Config, s: State, rounds: seq<Round>): Polled
    requires rounds != []
    decreases |rounds|, 0
  {
    Poll(cfg, After(cfg, s, rounds[..|rounds| - 1]), rounds[|rounds| - 1])
  }

  /** The package of the latest successful software install of the run, or what was there at the start. */
  function LatestSoftware(cfg: Config, s: State, rounds: seq<Round>, start: Installed): Installed {
    if rounds == [] then start
    else
      var r := rounds[|rounds| - 1];
      if Last(cfg, s, rounds).software == Succeeded && r.answer.Some? then Entry(r.answer.value.software)
      else LatestSoftware(cfg, s, rounds[..|rounds| - 1], start)
  }

  function LatestRulesInstall(cfg: Config, s: State, rounds: seq<Round>, start: Installed): Installed {
    if rounds == [] then start
    else
      var r := rounds[|rounds| - 1];
      if Last(cfg, s, rounds).rules == Succeeded && r.answer.Some? then Entry(r.answer.value.rules)
      else LatestRulesInstall(cfg, s, rounds[..|rounds| - 1], start)
  }

  /** Along every run, a readable record says exactly what was last installed with success. */
  lemma {:induction false} RecordTellsLatest(cfg: Config, s: State, rounds: seq<Round>)
    requires After(cfg, s, rounds).record.Readable?
    ensures s.record.Readable?
    ensures After(cfg, s, rounds).record.installed ==
      Reported(LatestSoftware(cfg, s, rounds, s.record.installed.software),
               LatestRulesInstall(cfg, s, rounds, s.record.installed.rules),
               s.record.installed.threatIntel)
  {
    hide Poll, IsUpdateNeeded;
    if rounds != [] {
      var before := rounds[..|rounds| - 1];
      PollRecord(cfg, After(cfg, s, before), rounds[|rounds| - 1]);
      RecordTellsLatest(cfg, s, before);
    }
  }

  /** An unreadable record and a missing symlink are for good: the record never changes again. */
  lemma {:induction false} StuckForever(cfg: Config, s: State, rounds: seq<Round>)
    ensures s.record.Unreadable? ==> After(cfg, s, rounds) == s
    ensures s.symlink.None? ==> After(cfg, s, rounds).symlink.None? && After(cfg, s, rounds).record == s.record
  {
    hide Poll;
    if rounds != [] {
      StuckForever(cfg, s, rounds[..|rounds| - 1]);
      PollStuck(cfg, After(cfg, s, rounds[..|rounds| - 1]), rounds[|rounds| - 1]);
    }
  }

  // ----- The lock -------------------------------------------------------------------

  function Count(b: bool): nat {
    if b then 1 else 0
  }

  /** How many installs of the run the lock refused. */
  function Refusals(cfg: Config, s: State, rounds: seq<Round>): nat {
    if rounds == [] then 0
    else
      var p := Last(cfg, s, rounds);
      Refusals(cfg, s, rounds[..|rounds| - 1]) + Count(p.software == RefusedByLock) + Count(p.rules == RefusedByLock)
  }

  predicate LockRemovalWorks(rounds: seq<Round>) {
    forall r | r in rounds :: !r.softwareFaults.lockRemove && !r.rulesFaults.lockRemove
  }

  lemma OneRoundLock(cfg: Config, s: State, r: Round)
    requires !r.softwareFaults.lockRemove && !r.rulesFaults.lockRemove
    ensures var p := Poll(cfg, s, r);
      Count(p.software == RefusedByLock) + Count(p.rules == RefusedByLock) + Count(p.state.locked) <= Count(s.locked)
  {
    hide SoftwareStep, RulesStep, SoftwareOffer, RulesOffer;
    var mid := SoftwareStep(cfg, s, SoftwareOffer(s, r), r.software, r.softwareFaults).0;
    SoftwareStepEffects(cfg, s, SoftwareOffer(s, r), r.software, r.softwareFaults);
    RulesStepEffects(cfg, mid, RulesOffer(s, r), r.rules, r.rulesFaults);
    RefusedRan(cfg, s, r);
  }

  lemma RefusedRan(cfg: Config, s: State, r: Round)
    ensures var (mid, o) := SoftwareStep(cfg, s, SoftwareOffer(s, r), r.software, r.softwareFaults);
      && (o == RefusedByLock ==> SoftwareOffer(s, r).Some? && r.software.Some?)
      && (RulesStep(cfg, mid, RulesOffer(s, r), r.rules, r.rulesFaults).1 == RefusedByLock ==>
        RulesOffer(s, r).Some? && r.rules.Some?)
  {
    hide Software, Rules, IsUpdateNeeded;
  }

  /** While its removal works, a lock left behind costs at most one refused install, and without one none is
      refused, because a refused call removes the lock it did not take. */
  lemma {:induction false} StaleLockCostsOne(cfg: Config, s: State, rounds: seq<Round>)
    requires LockRemovalWorks(rounds)
    ensures Refusals(cfg, s, rounds) + Count(After(cfg, s, rounds).locked) <= Count(s.locked)
  {
    hide Poll;
    if rounds != [] {
      StaleLockCostsOne(cfg, s, rounds[..|rounds| - 1]);
      assert rounds[|rounds| - 1] in rounds;
      OneRoundLock(cfg, After(cfg, s, rounds[..|rounds| - 1]), rounds[|rounds| - 1]);
    }
  }

  // ----- Convergence ----------------------------------------------------------------

  /** The manifests of the run that offer software, and the attempts that did not succeed. */
  function SoftwareOffers(cfg: Config, s: State, rounds: seq<Round>): nat {
    if rounds == [] then 0
    else SoftwareOffers(cfg, s, rounds[..|rounds| - 1]) + Count(Last(cfg, s, rounds).software != NotOffered)
  }

  function SoftwareFailures(cfg: Config, s: State, rounds: seq<Round>): nat {
    if rounds == [] then 0
    else
      var o := Last(cfg, s, rounds).software;
      SoftwareFailures(cfg, s, rounds[..|rounds| - 1]) + Count(o != NotOffered && o != Succeeded)
  }

  function RulesOffers(cfg: Config, s: State, rounds: seq<Round>): nat {
    if rounds == [] then 0
    else RulesOffers(cfg, s, rounds[..|rounds| - 1]) + Count(Last(cfg, s, rounds).rules != NotOffered)
  }

  function RulesFailures(cfg: Config, s: State, rounds: seq<Round>): nat {
    if rounds == [] then 0
    else
      var o := Last(cfg, s, rounds).rules;
      RulesFailures(cfg, s, rounds[..|rounds| - 1]) + Count(o != NotOffered && o != Succeeded)
  }

  /** Catalog and pin lead to the same software (rules) in every round that is answered. */
  predicate FixedSoftware(rounds: seq<Round>, p: Package) {
    forall r | r in rounds && r.answer.Some? :: r.answer.value.software == p
  }

  predicate FixedRules(rounds: seq<Round>, p: Package) {
    forall r | r in rounds && r.answer.Some? :: r.answer.value.rules == p
  }

  /** A sensor that records the package, or none that can be read, is not offered it. */
  predicate SettledOn(record: Record, p: Package) {
    record.Readable? ==> record.installed.software == Entry(p)
  }

  predicate SettledOnRules(record: Record, p: Package) {
    record.Readable? ==> record.installed.rules == Entry(p)
  }

  lemma SoftwareSettles(cfg: Config, s: State, r: Round, p: Package)
    requires p.version != "" && (r.answer.Some? ==> r.answer.value.software == p)
    ensures var after := Poll(cfg, s, r);
      && (SettledOn(s.record, p) ==> after.software == NotOffered && SettledOn(after.state.record, p))
      && (after.software == Succeeded ==> SettledOn(after.state.record, p))
  {
    hide Poll;
    PollRecord(cfg, s, r);
    InstalledIsNotOffered(p.version, p.digest);
  }

  lemma RulesSettle(cfg: Config, s: State, r: Round, p: Package)
    requires p.version != "" && (r.answer.Some? ==> r.answer.value.rules == p)
    ensures var after := Poll(cfg, s, r);
      && (SettledOnRules(s.record, p) ==> after.rules == NotOffered && SettledOnRules(after.state.record, p))
      && (after.rules == Succeeded ==> SettledOnRules(after.state.record, p))
  {
    hide Poll;
    PollRecord(cfg, s, r);
    InstalledIsNotOffered(p.version, p.digest);
  }

  /** Convergence: with a fixed catalog and pin, software is offered at most once more often than it fails. */
  lemma {:induction false} SoftwareConverges(cfg: Config, s: State, rounds: seq<Round>, p: Package)
    requires p.version != "" && FixedSoftware(rounds, p)
    ensures SoftwareOffers(cfg, s, rounds)
      <= SoftwareFailures(cfg, s, rounds) + Count(SettledOn(After(cfg, s, rounds).record, p))
  {
    hide Poll, SettledOn;
    if rounds != [] {
      var before, r := rounds[..|rounds| - 1], rounds[|rounds| - 1];
      SoftwareConverges(cfg, s, before, p);
      assert r in rounds;
      SoftwareSettles(cfg, After(cfg, s, before), r, p);
    }
  }

  lemma {:induction false} RulesConverge(cfg: Config, s: State, rounds: seq<Round>, p: Package)
    requires p.version != "" && FixedRules(rounds, p)
    ensures RulesOffers(cfg, s, rounds)
      <= RulesFailures(cfg, s, rounds) + Count(SettledOnRules(After(cfg, s, rounds).record, p))
  {
    hide Poll, SettledOnRules;
    if rounds != [] {
      var before, r := rounds[..|rounds| - 1], rounds[|rounds| - 1];
      RulesConverge(cfg, s, before, p);
      assert r in rounds;
      RulesSettle(cfg, After(cfg, s, before), r, p);
    }
  }

  /** Threat intelligence does not converge: nothing writes its entry, so that after every run it is offered exactly if
      it was needed at the start, however often it has been fetched. */
  lemma ThreatIntelNeverSettles(cfg: Config, s: State, rounds: seq<Round>, r: Round)
    requires Polls(After(cfg, s, rounds), r)
    ensures s.record.Readable?
    ensures var p, have := r.answer.value.threatIntel, s.record.installed.threatIntel;
      Poll(cfg, After(cfg, s, rounds), r).threatIntel != NotOffered
      <==> IsUpdateNeeded(p.version, have.version, p.digest, have.digest)
  {
    hide After, SoftwareStep, RulesStep, IsUpdateNeeded, LatestSoftware, LatestRulesInstall;
    RecordTellsLatest(cfg, s, rounds);
  }

  // ----- No downgrade ---------------------------------------------------------------

  /** From text `before` to text `now`: a version that parses stays one that parses and is not below what it was; other
      text that is not empty stays. */
  ghost predicate NoLower(before: string, now: string) {
    && (Parse(before).Some? ==> Parse(now).Some? && !Below(Parse(now).value, Parse(before).value))
    && (Parse(before).None? && before != "" ==> now == before)
  }

  lemma NoLowerSame(v: string)
    ensures NoLower(v, v)
  {
  }

  lemma EmptyDoesNotParse()
    ensures Parse("") == None
  {
  }

  lemma NoLowerTrans(a: string, b: string, c: string)
    requires NoLower(a, b) && NoLower(b, c)
    ensures NoLower(a, c)
  {
    hide Parse, Below;
    if Parse(a).Some? {
      BelowTransitive(Parse(a).value, Parse(b).value, Parse(c).value);
    }
  }

  lemma OfferNoLower(p: Package, have: Installed)
    requires IsUpdateNeeded(p.version, have.version, p.digest, have.digest)
    ensures NoLower(have.version, p.version)
  {
    hide Parse, Below;
    EmptyDoesNotParse();
    if have.version != "" {
      OfferIsNoDowngrade(p.version, have.version, p.digest, have.digest);
    }
  }

  lemma PollNoLower(cfg: Config, s: State, r: Round)
    requires Poll(cfg, s, r).state.record.Readable?
    ensures s.record.Readable?
    ensures var after := Poll(cfg, s, r).state.record.installed;
      NoLower(s.record.installed.software.version, after.software.version)
        && NoLower(s.record.installed.rules.version, after.rules.version)
  {
    hide Poll, NoLower, IsUpdateNeeded;
    PollRecord(cfg, s, r);
    NoLowerSame(s.record.installed.software.version);
    NoLowerSame(s.record.installed.rules.version);
    if SoftwareOffer(s, r).Some? {
      OfferNoLower(r.answer.value.software, s.record.installed.software);
    }
    if RulesOffer(s, r).Some? {
      OfferNoLower(r.answer.value.rules, s.record.installed.rules);
    }
  }

  /** No downgrade: along every run, whatever the server has on offer in each round, the recorded software and rules
      versions never go down, and text that does not parse is never replaced. */
  lemma {:induction false} NoDowngrade(cfg: Config, s: State, rounds: seq<Round>)
    requires After(cfg, s, rounds).record.Readable?
    ensures s.record.Readable?
    ensures var after := After(cfg, s, rounds).record.installed;
      NoLower(s.record.installed.software.version, after.software.version)
        && NoLower(s.record.installed.rules.version, after.rules.version)
  {
    hide Poll, NoLower;
    if rounds == [] {
      NoLowerSame(s.record.installed.software.version);
      NoLowerSame(s.record.installed.rules.version);
    } else {
      var before := rounds[..|rounds| - 1];
      var mid := After(cfg, s, before);
      PollNoLower(cfg, mid, rounds[|rounds| - 1]);
      NoDowngrade(cfg, s, before);
      var start, now := mid.record.installed, After(cfg, s, rounds).record.installed;
      NoLowerTrans(s.record.installed.software.version, start.software.version, now.software.version);
      NoLowerTrans(s.record.installed.rules.version, start.rules.version, now.rules.version);
    }
  }
}
