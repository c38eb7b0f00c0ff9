/** The assumptions about the libraries can be met: an explicit encoding of payloads and records as text. */
module Assumptions {
  import opened Basics
  import opened Receipts

  // ---------------------------------------------------------------- numbers, words and tables as text

  /** A number is written as that many strokes and a comma. */
  function Strokes(n: nat): string
  {
    if n == 0 then "," else "1" + Strokes(n - 1)
  }

  function Word(w: seq<nat>): string
  {
    if w == [] then ";" else Strokes(w[0]) + Word(w[1..])
  }

  function Table(rows: seq<seq<nat>>): string
  {
    if rows == [] then "" else Word(rows[0]) + Table(rows[1..])
  }

  predicate Plain(s: string)
  {
    forall i :: 0 <= i < |s| ==> s[i] in {'1', ',', ';'}
  }

  lemma {:induction false} StrokesPlain(n: nat)
    ensures Plain(Strokes(n)) && Strokes(n)[0] != ';'
  {
    if n > 0 {
      StrokesPlain(n - 1);
    }
  }

  lemma {:induction false} WordPlain(w: seq<nat>)
    ensures Plain(Word(w)) && Word(w) != ""
  {
    if w != [] {
      StrokesPlain(w[0]);
      WordPlain(w[1..]);
    }
  }

  lemma {:induction false} TablePlain(rows: seq<seq<nat>>)
    ensures Plain(Table(rows)) && (rows != [] ==> Table(rows) != "")
  {
    if rows != [] {
      WordPlain(rows[0]);
      TablePlain(rows[1..]);
    }
  }

  lemma {:induction false} StrokesDecode(m: nat, a: string, n: nat, b: string)
    requires Strokes(m) + a == Strokes(n) + b
    ensures m == n && a == b
  {
    var s, t := Strokes(m) + a, Strokes(n) + b;
    assert s[0] == t[0];
    if m == 0 || n == 0 {
      assert s[1..] == t[1..];
      assert ("," + a)[1..] == a && ("," + b)[1..] == b;
    } else {
      assert s == "1" + (Strokes(m - 1) + a) && t == "1" + (Strokes(n - 1) + b);
      assert s[1..] == Strokes(m - 1) + a && t[1..] == Strokes(n - 1) + b;
      StrokesDecode(m - 1, a, n - 1, b);
    }
  }

  lemma {:induction false} WordDecode(v: seq<nat>, a: string, w: seq<nat>, b: string)
    requires Word(v) + a == Word(w) + b
    ensures v == w && a == b
  {
    var s, t := Word(v) + a, Word(w) + b;
    assert s[0] == t[0];
    if v == [] || w == [] {
      StartsWord(v, a);
      StartsWord(w, b);
      assert (";" + a)[1..] == a && (";" + b)[1..] == b;
    } else {
      assert s == Strokes(v[0]) + (Word(v[1..]) + a) && t == Strokes(w[0]) + (Word(w[1..]) + b);
      StrokesDecode(v[0], Word(v[1..]) + a, w[0], Word(w[1..]) + b);
      WordDecode(v[1..], a, w[1..], b);
      assert v == [v[0]] + v[1..] && w == [w[0]] + w[1..];
    }
  }

  lemma StartsWord(w: seq<nat>, a: string)
    ensures (Word(w) + a)[0] == ';' <==> w == []
  {
    if w != [] {
      StrokesPlain(w[0]);
    }
  }

  lemma {:induction false} TableDecode(p: seq<seq<nat>>, q: seq<seq<nat>>)
    requires Table(p) == Table(q)
    ensures p == q
  {
    if p == [] || q == [] {
      TablePlain(p);
      TablePlain(q);
    } else {
      WordDecode(p[0], Table(p[1..]), q[0], Table(q[1..]));
      TableDecode(p[1..], q[1..]);
      assert p == [p[0]] + p[1..] && q == [q[0]] + q[1..];
    }
  }

  // ---------------------------------------------------------------- receipts as tables

  function Codes(s: string): (w: seq<nat>)
    ensures |w| == |s| && forall i :: 0 <= i < |s| ==> w[i] == s[i] as int
  {
    seq(|s|, i requires 0 <= i < |s| => s[i] as int)
  }

  lemma CodesDecode(s: string, t: string)
    requires Codes(s) == Codes(t)
    ensures s == t
  {
    forall i | 0 <= i < |s|
      ensures s[i] == t[i]
    {
      assert Codes(s)[i] == Codes(t)[i];
      assert s[i] as int == t[i] as int;
    }
  }

  function Integer(n: int): seq<nat>
  {
    if n < 0 then [1, -n] else [0, n]
  }

  function MaybeText(o: Option<string>): seq<nat>
  {
    if o.None? then [] else [1] + Codes(o.value)
  }

  function MaybeInteger(o: Option<int>): seq<nat>
  {
    if o.None? then [] else Integer(o.value)
  }

  function DecisionCode(d: Decision): nat
  {
    match d
    case Permit => 0
    case StepUp => 1
    case Escalate => 2
    case Deny => 3
  }

  function RiskCode(r: Risk): nat
  {
    match r
    case Low => 0
    case Medium => 1
    case High => 2
    case Critical => 3
  }

  lemma MaybeTextDecode(a: Option<string>, b: Option<string>)
    requires MaybeText(a) == MaybeText(b)
    ensures a == b
  {
    if a.Some? && b.Some? {
      assert MaybeText(a)[1..] == Codes(a.value) && MaybeText(b)[1..] == Codes(b.value);
      CodesDecode(a.value, b.value);
    }
  }

  function Rows(texts: seq<string>): (rows: seq<seq<nat>>)
    ensures |rows| == |texts| && forall i :: 0 <= i < |rows| ==> rows[i] == Codes(texts[i])
  {
    seq(|texts|, i requires 0 <= i < |texts| => Codes(texts[i]))
  }

  lemma RowsDecode(a: seq<string>, b: seq<string>)
    requires Rows(a) == Rows(b)
    ensures a == b
  {
    forall i | 0 <= i < |a|
      ensures a[i] == b[i]
    {
      assert Rows(a)[i] == Rows(b)[i];
      CodesDecode(a[i], b[i]);
    }
  }

  /** The texts of a payload that are always present, its other parts, and its paths. */
  function Texts(p: Payload): seq<string>
  {
    [p.receiptId, p.subject, p.action, p.resource, p.grantRef, p.repo, p.branch, p.workflowRunId, p.commitSha,
     p.invokingActor, p.reason]
  }

  function Others(p: Payload): seq<seq<nat>>
  {
    [[DecisionCode(p.decision), RiskCode(p.risk)], Integer(p.trustScore.num), Integer(p.trustScore.den),
     MaybeInteger(p.timestamp), MaybeText(p.attestationRef), MaybeText(p.priorReceiptId), MaybeText(p.approvalReviewer)]
  }

  function PayloadRows(p: Payload): seq<seq<nat>>
  {
    Rows(Texts(p)) + Others(p) + Rows(p.paths)
  }

  lemma TextsDecode(p: Payload, q: Payload)
    requires Texts(p) == Texts(q)
    ensures p.receiptId == q.receiptId && p.subject == q.subject && p.action == q.action && p.resource == q.resource
    ensures p.grantRef == q.grantRef && p.repo == q.repo && p.branch == q.branch && p.workflowRunId == q.workflowRunId
    ensures p.commitSha == q.commitSha && p.invokingActor == q.invokingActor && p.reason == q.reason
  {
    var s, t := Texts(p), Texts(q);
    assert s[0] == t[0] && s[1] == t[1] && s[2] == t[2] && s[3] == t[3] && s[4] == t[4] && s[5] == t[5];
    assert s[6] == t[6] && s[7] == t[7] && s[8] == t[8] && s[9] == t[9] && s[10] == t[10];
  }

  lemma OthersDecode(p: Payload, q: Payload)
    requires Others(p) == Others(q)
    ensures p.decision == q.decision && p.risk == q.risk && p.trustScore == q.trustScore && p.timestamp == q.timestamp
    ensures p.attestationRef == q.attestationRef && p.priorReceiptId == q.priorReceiptId
    ensures p.approvalReviewer == q.approvalReviewer
  {
    hide MaybeText;
    var s, t := Others(p), Others(q);
    assert s[0][0] == t[0][0] && s[0][1] == t[0][1];
    IntegerDecode(p.trustScore.num, q.trustScore.num) by { assert s[1] == t[1]; }
    IntegerDecode(p.trustScore.den, q.trustScore.den) by { assert s[2] == t[2]; }
    MaybeIntegerDecode(p.timestamp, q.timestamp) by { assert s[3] == t[3]; }
    MaybeTextDecode(p.attestationRef, q.attestationRef) by { assert s[4] == t[4]; }
    MaybeTextDecode(p.priorReceiptId, q.priorReceiptId) by { assert s[5] == t[5]; }
    MaybeTextDecode(p.approvalReviewer, q.approvalReviewer) by { assert s[6] == t[6]; }
  }

  lemma IntegerDecode(m: int, n: int)
    requires Integer(m) == Integer(n)
    ensures m == n
  {
    assert Integer(m)[0] == Integer(n)[0] && Integer(m)[1] == Integer(n)[1];
  }

  lemma MaybeIntegerDecode(a: Option<int>, b: Option<int>)
    requires MaybeInteger(a) == MaybeInteger(b)
    ensures a == b
  {
    if a.Some? && b.Some? {
      IntegerDecode(a.value, b.value);
    }
  }

  lemma PayloadDecode(p: Payload, q: Payload)
    requires PayloadRows(p) == PayloadRows(q)
    ensures p == q
  {
    hide Texts, Others, Rows;
    var s, t := PayloadRows(p), PayloadRows(q);
    Widths(p);
    Widths(q);
    assert s[..11] == Rows(Texts(p)) && s[11..18] == Others(p) && s[18..] == Rows(p.paths);
    assert t[..11] == Rows(Texts(q)) && t[11..18] == Others(q) && t[18..] == Rows(q.paths);
    RowsDecode(Texts(p), Texts(q));
    TextsDecode(p, q);
    OthersDecode(p, q);
    RowsDecode(p.paths, q.paths);
  }

  lemma Widths(p: Payload)
    ensures |Rows(Texts(p))| == 11 && |Others(p)| == 7
  {
  }

  function ReceiptRows(r: Receipt): seq<seq<nat>>
  {
    [Codes(r.chainHash), Codes(r.signature)] + PayloadRows(r.payload)
  }

  lemma ReceiptDecode(r: Receipt, s: Receipt)
    requires ReceiptRows(r) == ReceiptRows(s)
    ensures r == s
  {
    hide PayloadRows;
    var a, b := ReceiptRows(r), ReceiptRows(s);
    assert a[0] == b[0] && a[1] == b[1] && a[2..] == PayloadRows(r.payload) && b[2..] == PayloadRows(s.payload);
    CodesDecode(r.chainHash, s.chainHash);
    CodesDecode(r.signature, s.signature);
    PayloadDecode(r.payload, s.payload);
  }

  // ---------------------------------------------------------------- libraries

  function Digest(x: string): string
  {
    Table([Codes(x)])
  }

  function Stringify(p: Payload): string
  {
    "{" + Table(PayloadRows(p))
  }

  function Line(r: Receipt): string
  {
    Table(ReceiptRows(r))
  }

  /** The receipt that a line was written for, if there is one. */
  ghost function Parse(s: string): Option<Receipt>
  {
    if exists r: Receipt :: Line(r) == s then
      var r: Receipt :| Line(r) == s;
      Some(r)
    else None
  }

  lemma ParseLine(r: Receipt)
    ensures Parse(Line(r)) == Some(r)
    ensures Line(r) != "" && '\n' !in Line(r)
  {
    hide ReceiptRows, Table;
    TablePlain(ReceiptRows(r));
    assert ReceiptRows(r) != [] by { RowsPresent(r); }
    var s := Parse(Line(r)).value;
    TableDecode(ReceiptRows(r), ReceiptRows(s));
    ReceiptDecode(r, s);
  }

  lemma RowsPresent(r: Receipt)
    ensures ReceiptRows(r) != []
  {
  }

  lemma DigestDecode(x: string, y: string)
    requires Digest(x) == Digest(y)
    ensures x == y
  {
    hide Table;
    TableDecode([Codes(x)], [Codes(y)]);
    CodesDecode(x, y);
  }

  lemma StringifyDecode(p: Payload, q: Payload)
    requires Stringify(p) == Stringify(q)
    ensures p == q
  {
    hide Table, PayloadRows;
    assert Stringify(p)[1..] == Table(PayloadRows(p)) && Stringify(q)[1..] == Table(PayloadRows(q));
    TableDecode(PayloadRows(p), PayloadRows(q));
    PayloadDecode(p, q);
  }

  /** There are libraries with faithful text and without collisions, whatever the MAC is. */
  lemma LibrariesExist(mac: (Payload, string) -> string) returns (lib: Libraries)
    ensures FaithfulText(lib) && CollisionFree(lib) && lib.mac == mac
  {
    hide Table, ReceiptRows, PayloadRows;
    lib := Libraries(p => Stringify(p), x => Digest(x), mac, r => Line(r), s => Parse(s));
    forall r: Receipt
      ensures lib.parse(lib.line(r)) == Some(r) && lib.line(r) != "" && '\n' !in lib.line(r)
    {
      ParseLine(r);
    }
    forall x, y | lib.sha256(x) == lib.sha256(y)
      ensures x == y
    {
      DigestDecode(x, y);
    }
    forall x
      ensures '{' !in lib.sha256(x)
    {
      TablePlain([Codes(x)]);
    }
    forall p, q | lib.stringify(p) == lib.stringify(q)
      ensures p == q
    {
      StringifyDecode(p, q);
    }
  }
}
