/**
 * The signed append-only receipt ledger: a text file with one record a line,
 * and what the process remembers about it. File contents are characters; one
 * character stands for one byte.
 */
module ReceiptLedger {
  import opened Basics
  import opened Receipts

  // ---------------------------------------------------------------- the file

  function Render(lib: Libraries, rs: seq<Receipt>): string
  {
    if rs == [] then "" else lib.line(rs[0]) + "\n" + Render(lib, rs[1..])
  }

  function SplitLines(s: string): (parts: seq<string>)
    ensures parts != []
  {
    if s == "" then [""]
    else
      var rest := SplitLines(s[1..]);
      if s[0] == '\n' then [""] + rest else [[s[0]] + rest[0]] + rest[1..]
  }

  function NonEmpty(parts: seq<string>): seq<string>
  {
    if parts == [] then [] else if parts[0] == "" then NonEmpty(parts[1..]) else [parts[0]] + NonEmpty(parts[1..])
  }

  /** The records of the given lines, checked in order as successors of `acc`. */
  function Load(lib: Libraries, lines: seq<string>, acc: seq<Receipt>): Option<seq<Receipt>>
    decreases |lines|
  {
    if lines == [] then Some(acc)
    else
      var parsed := lib.parse(lines[0]);
      if parsed.None? || parsed.value.payload.receiptId in Ids(acc) ||
         RecordProblem(lib, parsed.value, LastHash(acc)) != "" then None
      else Load(lib, lines[1..], acc + [parsed.value])
  }

  /** What opening a file yields: its records in order, or failure. */
  function Open(lib: Libraries, file: string): Option<seq<Receipt>>
  {
    if file != "" && file[|file| - 1] != '\n' then None
    else Load(lib, NonEmpty(SplitLines(file)), [])
  }

  // ---------------------------------------------------------------- what the process remembers

  datatype Memory = Memory(records: map<string, Receipt>, last: Option<string>, bytes: nat)

  function IndexOf(rs: seq<Receipt>): map<string, Receipt>
  {
    if rs == [] then map[] else
      var r := rs[|rs| - 1];
      IndexOf(rs[..|rs| - 1])[r.payload.receiptId := r]
  }

  /** The memory of a process that has `rs` in its ledger. */
  function MemoryOf(lib: Libraries, rs: seq<Receipt>): Memory
  {
    Memory(IndexOf(rs), LastHash(rs), |Render(lib, rs)|)
  }

  /** How the file operations of one append turn out. */
  datatype AppendIO =
    | StatFails
    | WriteFails(reached: nat)
    | Written(count: nat, synced: bool, directorySynced: bool)

  datatype AppendResult = Appended | Threw(error: string)

  function Upto(s: string, n: nat): string { if n < |s| then s[..n] else s }

  /** One append: the new memory, the new file contents, and whether the caller got an exception. */
  function AppendTo(lib: Libraries, mem: Memory, file: string, r: Receipt, io: AppendIO): (Memory, string, AppendResult)
  {
    var text := lib.line(r) + "\n";
    if r.payload.receiptId in mem.records then (mem, file, Threw("DUPLICATE_RECEIPT_ID"))
    else if io.StatFails? || |file| != mem.bytes then (mem, file, Threw("RECEIPT_LEDGER_CHANGED_EXTERNALLY"))
    else if RecordProblem(lib, r, mem.last) != "" then (mem, file, Threw(RecordProblem(lib, r, mem.last)))
    else if io.WriteFails? then (mem, file + Upto(text, io.reached), Threw("WRITE_FAILED"))
    else if io.count < |text| then (mem, file + Upto(text, io.count), Threw("SHORT_RECEIPT_LEDGER_WRITE"))
    else if !io.synced || !io.directorySynced then (mem, file + text, Threw("SYNC_FAILED"))
    else
      (Memory(mem.records[r.payload.receiptId := r], Some(r.chainHash), mem.bytes + |text|), file + text, Appended)
  }

  // ---------------------------------------------------------------- the imperative ledger

  /** A ledger file, and whether the lock file beside it exists. */
  class LogFile {
    var content: string
    var locked: bool

    constructor (content: string, locked: bool)
      ensures this.content == content && this.locked == locked
    {
      this.content, this.locked := content, locked;
    }
  }

  /**
   * How the file operations of opening turn out: creating and writing the lock
   * file, opening the ledger file, checking its kind and mode, and the size
   * that its metadata give.
   */
  datatype OpenIO = OpenIO(locks: bool, opens: bool, trusted: bool, size: nat)

  predicate Ready(io: OpenIO, locked: bool, length: nat)
  {
    !locked && io.locks && io.opens && io.trusted && io.size == length
  }

  class ReceiptLedger {
    const lib: Libraries
    const file: LogFile
    var previousRecords: map<string, Receipt>
    var last: Option<string>
    var bytes: nat
    var released: bool

    function Remembered(): Memory
      reads this
    {
      Memory(previousRecords, last, bytes)
    }

    constructor (lib: Libraries, file: LogFile, records: map<string, Receipt>, last: Option<string>, bytes: nat)
      ensures this.lib == lib && this.file == file && !released
      ensures Remembered() == Memory(records, last, bytes)
    {
      this.lib, this.file := lib, file;
      this.previousRecords, this.last, this.bytes, this.released := records, last, bytes, false;
    }

    method Append(receipt: Receipt, io: AppendIO) returns (result: AppendResult)
      modifies this, file`content
      ensures released == old(released)
      ensures old(released) ==>
        && result == Threw("RECEIPT_LEDGER_CLOSED")
        && Remembered() == old(Remembered()) && file.content == old(file.content)
      ensures !old(released) ==>
        (Remembered(), file.content, result) == AppendTo(lib, old(Remembered()), old(file.content), receipt, io)
    {
      hide RecordProblem;
      if released {
        return Threw("RECEIPT_LEDGER_CLOSED");
      }
      if receipt.payload.receiptId in previousRecords {
        return Threw("DUPLICATE_RECEIPT_ID");
      }
      if io.StatFails? || |file.content| != bytes {
        return Threw("RECEIPT_LEDGER_CHANGED_EXTERNALLY");
      }
      var problem := RecordProblem(lib, receipt, last);
      if problem != "" {
        return Threw(problem);
      }
      var buffer := lib.line(receipt) + "\n";
      if io.WriteFails? {
        file.content := file.content + Upto(buffer, io.reached);
        return Threw("WRITE_FAILED");
      }
      file.content := file.content + Upto(buffer, io.count);
      if io.count < |buffer| {
        return Threw("SHORT_RECEIPT_LEDGER_WRITE");
      }
      if !io.synced || !io.directorySynced {
        return Threw("SYNC_FAILED");
      }
      bytes := bytes + |buffer|;
      last := Some(receipt.chainHash);
      previousRecords := previousRecords[receipt.payload.receiptId := receipt];
      return Appended;
    }

    /** Gives the lock back, once. */
    method Close()
      modifies this`released, file`locked
      ensures released
      ensures file.locked == (old(released) && old(file.locked))
    {
      if released {
        return;
      }
      released := true;
      file.locked := false;
    }
  }

  /** Reads the whole text of a file that is said to be `size` long; no byte count stands for an exception. */
  method ReadLedger(lib: Libraries, raw: string, size: nat)
    returns (records: map<string, Receipt>, last: Option<string>, bytes: Option<nat>)
    ensures bytes.None? <==> size != |raw| || Open(lib, raw).None?
    ensures bytes.Some? ==>
      && records == IndexOf(Open(lib, raw).value) && last == LastHash(Open(lib, raw).value)
      && bytes.value == |raw|
  {
    hide RecordProblem;
    records, last, bytes := map[], None, None;
    if size != |raw| || (size > 0 && raw[|raw| - 1] != '\n') {
      return;
    }
    var lines := NonEmpty(SplitLines(raw));
    ghost var loaded: seq<Receipt> := [];
    for i := 0 to |lines|
      invariant bytes.None?
      invariant records == IndexOf(loaded) && last == LastHash(loaded)
      invariant Load(lib, lines, []) == Load(lib, lines[i..], loaded)
    {
      IndexKeys(loaded);
      var parsed := lib.parse(lines[i]);
      if parsed.None? {
        return;
      }
      var receipt := parsed.value;
      if receipt.payload.receiptId in records {
        return;
      }
      if RecordProblem(lib, receipt, last) != "" {
        return;
      }
      records := records[receipt.payload.receiptId := receipt];
      last := Some(receipt.chainHash);
      assert (loaded + [receipt])[..|loaded|] == loaded;
      loaded := loaded + [receipt];
      assert lines[i..][1..] == lines[i + 1..];
    }
    bytes := Some(size);
  }

  /** Opens the ledger under an exclusive lock: null stands for an exception, which gives back a lock just taken. */
  method OpenReceiptLedger(lib: Libraries, file: LogFile, io: OpenIO) returns (ledger: ReceiptLedger?)
    modifies file`locked
    ensures ledger == null <==>
      || old(file.locked) || !io.locks || !io.opens || !io.trusted || io.size != |file.content|
      || Open(lib, file.content).None?
    ensures file.locked == (old(file.locked) || ledger != null)
    ensures ledger != null ==>
      && fresh(ledger) && ledger.file == file && ledger.lib == lib && !ledger.released
      && ledger.previousRecords == IndexOf(Open(lib, file.content).value)
      && ledger.last == LastHash(Open(lib, file.content).value)
      && ledger.bytes == |file.content|
  {
    if file.locked {
      return null;
    }
    file.locked := true;
    if !io.locks || !io.opens || !io.trusted {
      file.locked := false;
      return null;
    }
    var records, last, bytes := ReadLedger(lib, file.content, io.size);
    if bytes.None? {
      file.locked := false;
      return null;
    }
    ledger := new ReceiptLedger(lib, file, records, last, bytes.value);
  }

  lemma {:induction false} IndexKeys(rs: seq<Receipt>)
    ensures IndexOf(rs).Keys == Ids(rs)
  {
    if rs != [] {
      IndexKeys(rs[..|rs| - 1]);
      assert rs == rs[..|rs| - 1] + [rs[|rs| - 1]];
    }
  }
}
