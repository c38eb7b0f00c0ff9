/** One-time redemption of a prior receipt by exclusive creation of a file named after it. */
module ReplayLedger {

  /** How the file operations of one spend turn out. */
  datatype SpendIO = SpendIO(
    mkdir: Step, lstat: Step, directoryTrusted: bool, open: Step, write: bool, sync: bool, close: bool,
    directorySync: bool, finalClose: bool)

  /** An operation succeeds, or throws, with or without the code EEXIST. */
  datatype Step = Ok | Fails | FailsExists

  datatype SpendResult = SpendResult(accepted: bool, reason: string) | Threw

  predicate IdChar(c: char)
  {
    'A' <= c <= 'Z' || 'a' <= c <= 'z' || '0' <= c <= '9' || c in {'.', '_', ':', '-'}
  }

  predicate RedeemableId(id: string)
  {
    1 <= |id| <= 128 && forall i :: 0 <= i < |id| ==> IdChar(id[i])
  }

  function Refused(s: Step): SpendResult
  {
    SpendResult(false, if s == FailsExists then "STEP_UP_ALREADY_CONSUMED" else "REPLAY_LEDGER_UNAVAILABLE")
  }

  /** The names of the existing spend records after an attempt, and its result. */
  function Spend(records: set<string>, configured: bool, id: string, digest: string -> string, io: SpendIO)
    : (set<string>, SpendResult)
  {
    var name := digest(id) + ".spent";
    if !configured then (records, SpendResult(false, "PERSISTENT_REPLAY_LEDGER_UNCONFIGURED"))
    else if !RedeemableId(id) then (records, SpendResult(false, "INVALID_PRIOR_RECEIPT_ID"))
    else if io.mkdir != Ok then (records, Refused(io.mkdir))
    else if io.lstat != Ok then (records, Refused(io.lstat))
    else if !io.directoryTrusted then (records, SpendResult(false, "UNTRUSTED_REPLAY_LEDGER_DIRECTORY"))
    else if io.open != Ok then (records, Refused(io.open))
    else if name in records then (records, Refused(FailsExists))
    else if !io.write || !io.sync || !io.close then
      (records + {name}, if io.finalClose then SpendResult(false, "REPLAY_LEDGER_UNAVAILABLE") else Threw)
    else if !io.directorySync then (records + {name}, SpendResult(false, "REPLAY_LEDGER_UNAVAILABLE"))
    else (records + {name}, SpendResult(true, "PRIOR_RECEIPT_CONSUMED"))
  }

  class ReplayDirectory {
    const configured: bool
    const digest: string -> string
    var records: set<string>

    constructor (configured: bool, digest: string -> string, records: set<string>)
      ensures this.configured == configured && this.digest == digest && this.records == records
    {
      this.configured, this.digest, this.records := configured, digest, records;
    }

    /** Creates the record file exclusively, writes and syncs it, then syncs the directory. */
    method ConsumeStepUpReceipt(id: string, io: SpendIO) returns (result: SpendResult)
      modifies this
      ensures (records, result) == Spend(old(records), configured, id, digest, io)
    {
      if !configured {
        return SpendResult(false, "PERSISTENT_REPLAY_LEDGER_UNCONFIGURED");
      }
      if !RedeemableId(id) {
        return SpendResult(false, "INVALID_PRIOR_RECEIPT_ID");
      }
      if io.mkdir != Ok {
        return Refused(io.mkdir);
      }
      if io.lstat != Ok {
        return Refused(io.lstat);
      }
      if !io.directoryTrusted {
        return SpendResult(false, "UNTRUSTED_REPLAY_LEDGER_DIRECTORY");
      }
      if io.open != Ok {
        return Refused(io.open);
      }
      var name := digest(id) + ".spent";
      if name in records {
        return Refused(FailsExists);
      }
      records := records + {name};
      var fdOpen := true;
      if io.write && io.sync && io.close {
        fdOpen := false;
        if io.directorySync {
          return SpendResult(true, "PRIOR_RECEIPT_CONSUMED");
        }
      }
      // the record stays behind; an open descriptor is closed on the way out
      if fdOpen && !io.finalClose {
        return Threw;
      }
      return SpendResult(false, "REPLAY_LEDGER_UNAVAILABLE");
    }
  }

  // ---------------------------------------------------------------- laws

  datatype Attempt = Attempt(id: string, io: SpendIO)

  /** The records after a run of attempts on one directory, and which attempts were accepted. */
  function Run(records: set<string>, configured: bool, digest: string -> string, tries: seq<Attempt>)
    : (r: (set<string>, seq<bool>))
    ensures |r.1| == |tries|
  {
    if tries == [] then (records, [])
    else
      var (rs, accepted) := Run(records, configured, digest, tries[..|tries| - 1]);
      var last := tries[|tries| - 1];
      var (rs', result) := Spend(rs, configured, last.id, digest, last.io);
      (rs', accepted + [result.SpendResult? && result.accepted])
  }

  /** Records are never deleted, and an accepted attempt has just created its own. */
  lemma AcceptedCreates(records: set<string>, configured: bool, id: string, digest: string -> string, io: SpendIO)
    ensures var (records', result) := Spend(records, configured, id, digest, io);
      && records <= records' <= records + {digest(id) + ".spent"}
      && (result.SpendResult? && result.accepted ==>
            digest(id) + ".spent" !in records && digest(id) + ".spent" in records')
  {
  }

  /** Letters, digits, and the characters - . : _ by their codes. */
  predicate IdCode(n: int)
  {
    n in {45, 46, 58, 95} || 48 <= n <= 57 || 65 <= n <= 90 || 97 <= n <= 122
  }

  /** What a receipt identifier may consist of, and how long it may be. */
  ghost predicate IdShape(id: string)
  {
    id != "" && |id| <= 128 && forall i :: 0 <= i < |id| ==> IdCode(id[i] as int)
  }

  lemma RedeemableExactlyWhen(id: string)
    ensures RedeemableId(id) <==> IdShape(id)
  {
    forall i | 0 <= i < |id|
      ensures IdChar(id[i]) <==> IdCode(id[i] as int)
    {
      CodeOf(id[i]);
    }
    hide IdChar, IdCode;
  }

  lemma CodeOf(c: char)
    ensures IdChar(c) <==> IdCode(c as int)
  {
  }

  /** The operations before the record is created all work. */
  predicate Reached(io: SpendIO)
  {
    io.mkdir == io.lstat == io.open == Ok && io.directoryTrusted
  }

  /** The first of them that throws does so with the code for a file that exists. */
  predicate FirstFailureExists(io: SpendIO)
  {
    || io.mkdir == FailsExists
    || (io.mkdir == Ok && io.lstat == FailsExists)
    || (io.mkdir == io.lstat == Ok && io.directoryTrusted && io.open == FailsExists)
  }

  /** Only an attempt that gets to creating its record leaves one; and when it is accepted, or ends in an exception. */
  lemma CreatesExactlyWhen(records: set<string>, configured: bool, id: string, digest: string -> string, io: SpendIO)
    ensures var (records', result) := Spend(records, configured, id, digest, io);
      var name := digest(id) + ".spent";
      var creates := configured && IdShape(id) && Reached(io) && name !in records;
      && records' == (if creates then records + {name} else records)
      && (result.Threw? <==> creates && !(io.write && io.sync && io.close) && !io.finalClose)
      && (result == SpendResult(true, "PRIOR_RECEIPT_CONSUMED") <==>
            creates && io.write && io.sync && io.close && io.directorySync)
      && (result.SpendResult? && result.accepted ==> result.reason == "PRIOR_RECEIPT_CONSUMED")
  {
    hide RedeemableId, IdShape;
    RedeemableExactlyWhen(id);
  }

  /** Why an attempt is refused. */
  lemma RefusedExactlyWhen(records: set<string>, configured: bool, id: string, digest: string -> string, io: SpendIO)
    ensures var result := Spend(records, configured, id, digest, io).1;
      var used := configured && IdShape(id) &&
                  (FirstFailureExists(io) || (Reached(io) && digest(id) + ".spent" in records));
      && (result == SpendResult(false, "PERSISTENT_REPLAY_LEDGER_UNCONFIGURED") <==> !configured)
      && (result == SpendResult(false, "INVALID_PRIOR_RECEIPT_ID") <==> configured && !IdShape(id))
      && (result == SpendResult(false, "UNTRUSTED_REPLAY_LEDGER_DIRECTORY") <==>
            configured && IdShape(id) && io.mkdir == io.lstat == Ok && !io.directoryTrusted)
      && (result == SpendResult(false, "STEP_UP_ALREADY_CONSUMED") <==> used)
      && (result.SpendResult? ==>
            result.reason in {"PERSISTENT_REPLAY_LEDGER_UNCONFIGURED", "INVALID_PRIOR_RECEIPT_ID",
                              "UNTRUSTED_REPLAY_LEDGER_DIRECTORY", "STEP_UP_ALREADY_CONSUMED",
                              "REPLAY_LEDGER_UNAVAILABLE", "PRIOR_RECEIPT_CONSUMED"})
  {
    hide RedeemableId, IdShape;
    RedeemableExactlyWhen(id);
  }

  /** A redemption is accepted exactly when every file operation works and no record of it exists. */
  lemma AcceptedExactlyWhen(records: set<string>, configured: bool, id: string, digest: string -> string, io: SpendIO)
    ensures Spend(records, configured, id, digest, io).1 == SpendResult(true, "PRIOR_RECEIPT_CONSUMED") <==>
      && configured && IdShape(id) && digest(id) + ".spent" !in records
      && io.mkdir == io.lstat == io.open == Ok && io.directoryTrusted
      && io.write && io.sync && io.close && io.directorySync
    ensures var (records', result) := Spend(records, configured, id, digest, io);
      records' != records && result != SpendResult(true, "PRIOR_RECEIPT_CONSUMED") ==>
        !io.write || !io.sync || !io.close || !io.directorySync
  {
    hide RedeemableId, IdShape;
    RedeemableExactlyWhen(id);
  }

  /** What has been accepted is on record, so no two accepted attempts name the same receipt. */
  lemma {:induction false} AcceptedOnRecord(records: set<string>, configured: bool, digest: string -> string,
                                            tries: seq<Attempt>, k: nat)
    requires k < |tries|
    requires Run(records, configured, digest, tries).1[k]
    ensures digest(tries[k].id) + ".spent" in Run(records, configured, digest, tries).0
    ensures digest(tries[k].id) + ".spent" !in records
    ensures forall j :: 0 <= j < |tries| && j != k && Run(records, configured, digest, tries).1[j]
              ==> tries[j].id != tries[k].id
  {
    hide Spend;
    var n := |tries| - 1;
    var front, last := tries[..n], tries[n];
    var (rs, accepted) := Run(records, configured, digest, front);
    AcceptedCreates(rs, configured, last.id, digest, last.io);
    RecordsGrow(records, configured, digest, front);
    forall j | 0 <= j < n && accepted[j]
      ensures digest(front[j].id) + ".spent" in rs
      ensures forall i :: 0 <= i < n && i != j && accepted[i] ==> front[i].id != front[j].id
      ensures digest(front[j].id) + ".spent" !in records
    {
      AcceptedOnRecord(records, configured, digest, front, j);
    }
    assert forall j :: 0 <= j < n ==> front[j] == tries[j];
  }

  lemma {:induction false} RecordsGrow(records: set<string>, configured: bool, digest: string -> string,
                                       tries: seq<Attempt>)
    ensures records <= Run(records, configured, digest, tries).0
  {
    hide Spend;
    if tries != [] {
      var last := tries[|tries| - 1];
      RecordsGrow(records, configured, digest, tries[..|tries| - 1]);
      AcceptedCreates(Run(records, configured, digest, tries[..|tries| - 1]).0, configured, last.id, digest, last.io);
    }
  }
}
