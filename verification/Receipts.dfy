/** Requests, execution receipts, and how receipts are hashed, signed and chained. */
module Receipts {
  import opened Basics

  datatype Decision = Permit | StepUp | Escalate | Deny

  datatype Risk = Low | Medium | High | Critical

  datatype Ratio = Ratio(num: int, den: int)

  function TwoToThe(k: nat): int
  {
    if k == 0 then 1 else 2 * TwoToThe(k - 1)
  }

  ghost predicate PowerOfTwo(n: int)
  {
    n == 1 || exists k: nat :: n == TwoToThe(k)
  }

  /** A finite double as receipts record it: a binary fraction in lowest terms, so that equal numbers are one value. */
  type Score = s: Ratio | PowerOfTwo(s.den) && (s.den > 1 ==> s.num % 2 != 0) witness Ratio(0, 1)

  /** The double that "0.85" denotes. */
  const TRUST_THRESHOLD := Ratio(7656119366529843, 9007199254740992)

  /** The threshold is itself a value that a receipt can record. */
  lemma ThresholdIsScore()
    ensures PowerOfTwo(TRUST_THRESHOLD.den) && TRUST_THRESHOLD.num % 2 != 0
  {
    assert TwoToThe(10) == 1024 && TwoToThe(20) == 1048576 && TwoToThe(30) == 1073741824;
    assert TwoToThe(40) == 1099511627776 && TwoToThe(50) == 1125899906842624;
    assert TwoToThe(53) == 9007199254740992;
  }

  predicate AtLeast(x: Ratio, y: Ratio)
  {
    x.num * y.den >= y.num * x.den
  }

  /** A receipt before it is chained and signed; `timestamp` is None when it does not parse as a date. */
  datatype Payload = Payload(
    receiptId: string, subject: string, action: string, resource: string, decision: Decision,
    trustScore: Score, grantRef: string, attestationRef: Option<string>, risk: Risk, repo: string, branch: string,
    paths: seq<string>, workflowRunId: string, commitSha: string, invokingActor: string, timestamp: Option<int>,
    reason: string, priorReceiptId: Option<string>, approvalReviewer: Option<string>)

  datatype Receipt = Receipt(payload: Payload, chainHash: string, signature: string)

  /** JSON text, SHA-256 and HMAC-SHA-256: arbitrary functions. */
  datatype Libraries = Libraries(
    stringify: Payload -> string, sha256: string -> string, mac: (Payload, string) -> string,
    line: Receipt -> string, parse: string -> Option<Receipt>)

  /** JSON text of a receipt is a non-empty single line that parses back to it. */
  ghost predicate FaithfulText(lib: Libraries)
  {
    forall r {:trigger lib.line(r)} ::
      lib.parse(lib.line(r)) == Some(r) && lib.line(r) != "" && '\n' !in lib.line(r)
  }

  /** Digests collide on no two texts and contain no brace; payload text is faithful and starts with one. */
  ghost predicate CollisionFree(lib: Libraries)
  {
    && (forall x, y :: lib.sha256(x) == lib.sha256(y) ==> x == y)
    && (forall x {:trigger lib.sha256(x)} :: '{' !in lib.sha256(x))
    && (forall p, q :: lib.stringify(p) == lib.stringify(q) ==> p == q)
    && (forall p {:trigger lib.stringify(p)} :: lib.stringify(p) != "" && lib.stringify(p)[0] == '{')
  }

  function HashInput(lib: Libraries, previous: Option<string>, p: Payload): string
  {
    (if previous.None? then "GENESIS" else previous.value) + lib.stringify(p)
  }

  function ChainHash(lib: Libraries, previous: Option<string>, p: Payload): string
  {
    "sha256:" + lib.sha256(HashInput(lib, previous, p))
  }

  function SignReceipt(lib: Libraries, p: Payload, chainHash: string): string
  {
    "hmac-sha256:" + lib.mac(p, chainHash)
  }

  function FinalizeReceipt(lib: Libraries, p: Payload, previous: Option<string>): Receipt
  {
    var chain := ChainHash(lib, previous, p);
    Receipt(p, chain, SignReceipt(lib, p, chain))
  }

  // ---------------------------------------------------------------- checking a record

  predicate HexDigit(c: char) { '0' <= c <= '9' || 'a' <= c <= 'f' || 'A' <= c <= 'F' }

  /** "er-" in either case, then 36 hexadecimal digits or dashes. */
  predicate ReceiptIdShape(id: string)
  {
    && |id| == 39
    && id[0] in {'e', 'E'} && id[1] in {'r', 'R'} && id[2] == '-'
    && forall i :: 3 <= i < 39 ==> HexDigit(id[i]) || id[i] == '-'
  }

  /** A reason to reject the record as successor of `previous`, or "". */
  function RecordProblem(lib: Libraries, r: Receipt, previous: Option<string>): string
  {
    if !ReceiptIdShape(r.payload.receiptId) then "INVALID_RECEIPT_LEDGER_RECORD"
    else if ChainHash(lib, previous, r.payload) != r.chainHash then "RECEIPT_LEDGER_CHAIN_BROKEN"
    else if SignReceipt(lib, r.payload, r.chainHash) != r.signature then "RECEIPT_LEDGER_SIGNATURE_INVALID"
    else ""
  }

  /** A hexadecimal digit or a dash, by its code. */
  predicate HexOrDash(n: int) { n == 45 || 48 <= n <= 57 || 65 <= n <= 70 || 97 <= n <= 102 }

  /** The identifiers that receipts may have. */
  predicate WellNamed(id: string)
  {
    && |id| == 39 && (id[..3] == "er-" || id[..3] == "ER-" || id[..3] == "Er-" || id[..3] == "eR-")
    && forall i :: 3 <= i < 39 ==> HexOrDash(id[i] as int)
  }

  lemma NameExactlyWhen(id: string)
    ensures ReceiptIdShape(id) <==> WellNamed(id)
  {
    if |id| == 39 {
      assert id[..3] == [id[0], id[1], id[2]];
    }
    forall i | 3 <= i < |id|
      ensures HexDigit(id[i]) || id[i] == '-' <==> HexOrDash(id[i] as int)
    {
    }
    hide HexDigit, HexOrDash;
  }

  /** What makes a record the successor of another, and what is reported when it is not. */
  lemma RecordExactlyWhen(lib: Libraries, r: Receipt, previous: Option<string>)
    ensures var problem := RecordProblem(lib, r, previous);
      var before := if previous.None? then "GENESIS" else previous.value;
      var named := WellNamed(r.payload.receiptId);
      var chained := named && r.chainHash == "sha256:" + lib.sha256(before + lib.stringify(r.payload));
      var signed := chained && r.signature == "hmac-sha256:" + lib.mac(r.payload, r.chainHash);
      && (problem == "" <==> signed)
      && (problem == "INVALID_RECEIPT_LEDGER_RECORD" <==> !named)
      && (problem == "RECEIPT_LEDGER_CHAIN_BROKEN" <==> named && !chained)
      && (problem == "RECEIPT_LEDGER_SIGNATURE_INVALID" <==> chained && !signed)
  {
    NameExactlyWhen(r.payload.receiptId);
    hide ReceiptIdShape, WellNamed;
  }

  /** A record made with the current last hash always passes the check against it. */
  lemma FinalizedPasses(lib: Libraries, p: Payload, previous: Option<string>)
    requires ReceiptIdShape(p.receiptId)
    ensures RecordProblem(lib, FinalizeReceipt(lib, p, previous), previous) == ""
  {
  }

  // ---------------------------------------------------------------- chains

  function LastHash(rs: seq<Receipt>): Option<string>
  {
    if rs == [] then None else Some(rs[|rs| - 1].chainHash)
  }

  function Ids(rs: seq<Receipt>): set<string>
  {
    set r | r in rs :: r.payload.receiptId
  }

  /** Distinct identifiers, and every record passes the check against the one before it. */
  ghost predicate Chained(lib: Libraries, rs: seq<Receipt>)
  {
    rs == [] ||
    (var front, r := rs[..|rs| - 1], rs[|rs| - 1];
     Chained(lib, front) && r.payload.receiptId !in Ids(front) && RecordProblem(lib, r, LastHash(front)) == "")
  }

  lemma {:induction false} ChainedPrefix(lib: Libraries, rs: seq<Receipt>, n: nat)
    requires Chained(lib, rs) && n <= |rs|
    ensures Chained(lib, rs[..n])
    decreases |rs|
  {
    hide RecordProblem;
    if n < |rs| {
      ChainedPrefix(lib, rs[..|rs| - 1], n);
      assert rs[..|rs| - 1][..n] == rs[..n];
    } else {
      assert rs[..n] == rs;
    }
  }

  /** The hash input determines both its parts, although they are simply concatenated. */
  lemma HashInputInjective(lib: Libraries, a: Option<string>, p: Payload, b: Option<string>, q: Payload)
    requires CollisionFree(lib)
    requires forall o :: o in {a, b} && o.Some? ==> '{' !in o.value && o.value != "GENESIS"
    requires HashInput(lib, a, p) == HashInput(lib, b, q)
    ensures a == b && p == q
  {
    var x := if a.None? then "GENESIS" else a.value;
    var y := if b.None? then "GENESIS" else b.value;
    assert '{' !in "GENESIS";
    BraceSplits(x, lib.stringify(p), y, lib.stringify(q));
  }

  lemma BraceSplits(x: string, s: string, y: string, t: string)
    requires '{' !in x && '{' !in y
    requires s != "" && t != "" && s[0] == '{' == t[0]
    requires x + s == y + t
    ensures x == y && s == t
  {
    BraceAt(x, s);
    BraceAt(y, t);
    assert (x + s)[..|x|] == x && (y + t)[..|y|] == y;
    assert (x + s)[|x|..] == s && (y + t)[|y|..] == t;
  }

  lemma BraceAt(x: string, s: string)
    requires '{' !in x && s != "" && s[0] == '{'
    ensures |x| < |x + s| && (x + s)[|x|] == '{'
    ensures forall i :: 0 <= i < |x| ==> (x + s)[i] != '{'
  {
  }

  lemma LastHashShape(lib: Libraries, rs: seq<Receipt>)
    requires CollisionFree(lib) && Chained(lib, rs)
    ensures var h := LastHash(rs); h.Some? ==> '{' !in h.value && h.value != "GENESIS"
  {
    if rs != [] {
      var r := rs[|rs| - 1];
      var h := lib.sha256(HashInput(lib, LastHash(rs[..|rs| - 1]), r.payload));
      assert r.chainHash == "sha256:" + h;
      assert r.chainHash[0] == 's' && "GENESIS"[0] == 'G';
    }
  }

  /** Chains that end in the same hash are the same chain, from the first record on. */
  lemma {:induction false} LastHashPinsChain(lib: Libraries, a: seq<Receipt>, b: seq<Receipt>)
    requires CollisionFree(lib)
    requires Chained(lib, a) && Chained(lib, b)
    requires LastHash(a) == LastHash(b)
    ensures a == b
    decreases |a|
  {
    hide CollisionFree, RecordProblem, HashInput, Ids;
    if a != [] {
      var m, n := |a| - 1, |b| - 1;
      SameInputs(lib, LastHash(a[..m]), a[m], LastHash(b[..n]), b[n]);
      LastHashShape(lib, a[..m]);
      LastHashShape(lib, b[..n]);
      HashInputInjective(lib, LastHash(a[..m]), a[m].payload, LastHash(b[..n]), b[n].payload);
      LastHashPinsChain(lib, a[..m], b[..n]);
      assert a == a[..m] + [a[m]] && b == b[..n] + [b[n]];
    }
  }

  lemma SameInputs(lib: Libraries, x: Option<string>, r: Receipt, y: Option<string>, s: Receipt)
    requires CollisionFree(lib)
    requires RecordProblem(lib, r, x) == "" == RecordProblem(lib, s, y)
    requires r.chainHash == s.chainHash
    ensures HashInput(lib, x, r.payload) == HashInput(lib, y, s.payload)
    ensures r.payload == s.payload ==> r == s
  {
    var g, h := lib.sha256(HashInput(lib, x, r.payload)), lib.sha256(HashInput(lib, y, s.payload));
    assert r.chainHash == "sha256:" + g && s.chainHash == "sha256:" + h;
    assert r.chainHash[7..] == g && s.chainHash[7..] == h;
  }
}
