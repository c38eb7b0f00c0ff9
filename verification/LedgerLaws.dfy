/** The ledger as an append-only list: what appends, failures and reopening keep. */
module LedgerLaws {
  import opened Basics
  import opened Receipts
  import opened ReceiptLedger

  predicate Prefix(s: string, t: string)
  {
    |s| <= |t| && t[..|s|] == s
  }

  /** Memory describes exactly the records `done`, whose text begins the file. */
  ghost predicate Refines(lib: Libraries, mem: Memory, file: string, done: seq<Receipt>)
  {
    && mem == MemoryOf(lib, done)
    && Chained(lib, done)
    && Prefix(Render(lib, done), file)
  }

  lemma {:induction false} RenderAppend(lib: Libraries, a: seq<Receipt>, b: seq<Receipt>)
    ensures Render(lib, a + b) == Render(lib, a) + Render(lib, b)
  {
    if a == [] {
      assert a + b == b;
    } else {
      RenderAppend(lib, a[1..], b);
      assert (a + b)[1..] == a[1..] + b && (a + b)[0] == a[0];
      Joined(lib.line(a[0]) + "\n", Render(lib, a[1..]), Render(lib, b));
    }
  }

  lemma Joined(s: string, t: string, u: string)
    ensures s + (t + u) == s + t + u
  {
  }

  lemma RenderOne(lib: Libraries, r: Receipt)
    ensures Render(lib, [r]) == lib.line(r) + "\n"
  {
  }

  lemma RenderPush(lib: Libraries, done: seq<Receipt>, r: Receipt)
    ensures Render(lib, done + [r]) == Render(lib, done) + (lib.line(r) + "\n")
  {
    RenderAppend(lib, done, [r]);
    RenderOne(lib, r);
  }

  lemma IndexPush(done: seq<Receipt>, r: Receipt)
    ensures IndexOf(done + [r]) == IndexOf(done)[r.payload.receiptId := r]
    ensures LastHash(done + [r]) == Some(r.chainHash)
  {
  }

  /** The index returns exactly the record with the given identifier. */
  lemma {:induction false} IndexFinds(lib: Libraries, done: seq<Receipt>, k: nat)
    requires Chained(lib, done) && k < |done|
    ensures done[k].payload.receiptId in IndexOf(done)
    ensures IndexOf(done)[done[k].payload.receiptId] == done[k]
  {
    hide RecordProblem;
    var n := |done| - 1;
    if k < n {
      IndexFinds(lib, done[..n], k);
      assert done[..n][k] == done[k];
      assert done[k] in done[..n];
    }
  }

  lemma {:induction false} IndexHolds(done: seq<Receipt>, id: string)
    requires id in IndexOf(done)
    ensures exists k :: 0 <= k < |done| && done[k] == IndexOf(done)[id] && done[k].payload.receiptId == id
  {
    var n := |done| - 1;
    if done[n].payload.receiptId != id {
      IndexHolds(done[..n], id);
    }
  }

  /** How many characters of a record the file operations write, at most. */
  function Written(io: AppendIO): nat
  {
    match io
    case StatFails => 0
    case WriteFails(reached) => reached
    case Written(count, _, _) => count
  }

  /**
   * Each outcome of an append by a process that remembers `done`, with its exact
   * condition, and what it leaves in the file.
   */
  lemma AppendExactlyWhen(lib: Libraries, done: seq<Receipt>, file: string, r: Receipt, io: AppendIO)
    ensures var (mem', file', result) := AppendTo(lib, MemoryOf(lib, done), file, r, io);
      var text := lib.line(r) + "\n";
      var known := exists x :: x in done && x.payload.receiptId == r.payload.receiptId;
      var changed := !known && (io.StatFails? || |file| != |Render(lib, done)|);
      var problem := RecordProblem(lib, r, LastHash(done));
      var wrote := !known && !changed && problem == "";
      var complete := wrote && io.Written? && io.count >= |text|;
      && (known ==> result == Threw("DUPLICATE_RECEIPT_ID"))
      && (changed ==> result == Threw("RECEIPT_LEDGER_CHANGED_EXTERNALLY"))
      && (!known && !changed && !wrote ==> result == Threw(problem))
      && (wrote && io.WriteFails? ==> result == Threw("WRITE_FAILED"))
      && (wrote && io.Written? && !complete ==> result == Threw("SHORT_RECEIPT_LEDGER_WRITE"))
      && (complete && !(io.synced && io.directorySynced) ==> result == Threw("SYNC_FAILED"))
      && (result == Appended <==> complete && io.synced && io.directorySynced)
      && (!wrote ==> file' == file)
      && (wrote ==> file' == file + Upto(text, Written(io)))
      && (result != Appended ==> mem' == MemoryOf(lib, done))
  {
    hide RecordProblem, Render, LastHash, IndexOf;
    IndexKeys(done);
    assert r.payload.receiptId in Ids(done) <==> exists x :: x in done && x.payload.receiptId == r.payload.receiptId;
  }

  /** An append either completes, extending the list by its record, or changes nothing the process remembers. */
  lemma AppendRefines(lib: Libraries, mem: Memory, file: string, done: seq<Receipt>, r: Receipt, io: AppendIO)
    requires Refines(lib, mem, file, done)
    ensures var (mem', file', result) := AppendTo(lib, mem, file, r, io);
      if result.Appended?
      then Refines(lib, mem', file', done + [r]) && file == Render(lib, done) && file' == Render(lib, done + [r])
      else mem' == mem && Refines(lib, mem, file', done) && Prefix(file, file')
  {
    hide RecordProblem;
    var (mem', file', result) := AppendTo(lib, mem, file, r, io);
    if result.Appended? {
      assert file == Render(lib, done);
      RenderPush(lib, done, r);
      IndexPush(done, r);
      IndexKeys(done);
      assert (done + [r])[..|done|] == done;
    }
  }

  /** When a failed append changes the file, the file is longer than what memory accounts for. */
  lemma FailurePoisons(lib: Libraries, mem: Memory, file: string, r: Receipt, io: AppendIO)
    ensures var (mem', file', result) := AppendTo(lib, mem, file, r, io);
      result.Threw? && file' != file ==> |file'| > mem'.bytes
  {
  }

  // ---------------------------------------------------------------- runs

  datatype Op = Op(receipt: Receipt, io: AppendIO)

  /** A run of appends: final memory, final file, and the records whose append completed. */
  function Run(lib: Libraries, mem: Memory, file: string, ops: seq<Op>): (Memory, string, seq<Receipt>)
  {
    if ops == [] then (mem, file, [])
    else
      var (m, f, rs) := Run(lib, mem, file, ops[..|ops| - 1]);
      var op := ops[|ops| - 1];
      var (m', f', result) := AppendTo(lib, m, f, op.receipt, op.io);
      (m', f', if result.Appended? then rs + [op.receipt] else rs)
  }

  /** After any run, with any failures, memory describes exactly the completed appends. */
  lemma {:induction false} RunRefines(lib: Libraries, mem: Memory, file: string, done: seq<Receipt>, ops: seq<Op>)
    requires Refines(lib, mem, file, done)
    ensures var (mem', file', completed) := Run(lib, mem, file, ops);
      Refines(lib, mem', file', done + completed)
  {
    hide RecordProblem, Refines, AppendTo;
    if ops == [] {
      assert done + [] == done;
    } else {
      var front, op := ops[..|ops| - 1], ops[|ops| - 1];
      RunRefines(lib, mem, file, done, front);
      var (m, f, rs) := Run(lib, mem, file, front);
      AppendRefines(lib, m, f, done + rs, op.receipt, op.io);
      assert done + (rs + [op.receipt]) == done + rs + [op.receipt];
    }
  }

  /** Once a failed append has changed the file, every later append of this process refuses and writes nothing. */
  lemma {:induction false} PoisonedForever(lib: Libraries, mem: Memory, file: string, ops: seq<Op>)
    requires |file| > mem.bytes
    ensures Run(lib, mem, file, ops) == (mem, file, [])
  {
    hide RecordProblem;
    if ops != [] {
      PoisonedForever(lib, mem, file, ops[..|ops| - 1]);
    }
  }

  /** An append that throws after changing the file makes all later appends of the process refuse. */
  lemma ThrowingEndsAppends(lib: Libraries, mem: Memory, file: string, r: Receipt, io: AppendIO, ops: seq<Op>)
    requires AppendTo(lib, mem, file, r, io).2.Threw? && AppendTo(lib, mem, file, r, io).1 != file
    ensures var (mem', file', _) := AppendTo(lib, mem, file, r, io);
      mem' == mem && Run(lib, mem', file', ops) == (mem, file', [])
  {
    hide RecordProblem, Run;
    var (mem', file', result) := AppendTo(lib, mem, file, r, io);
    FailurePoisons(lib, mem, file, r, io);
    PoisonedForever(lib, mem', file', ops);
  }

  // ---------------------------------------------------------------- reopening

  lemma {:induction false} SplitAtNewline(a: string, rest: string)
    requires '\n' !in a
    ensures SplitLines(a + "\n" + rest) == [a] + SplitLines(rest)
  {
    var s := a + "\n" + rest;
    if a == "" {
      assert s == "\n" + rest;
      assert s[1..] == rest;
    } else {
      SplitAtNewline(a[1..], rest);
      assert s[1..] == a[1..] + "\n" + rest;
      assert a == [a[0]] + a[1..];
    }
  }

  function LinesOf(lib: Libraries, rs: seq<Receipt>): seq<string>
  {
    if rs == [] then [] else [lib.line(rs[0])] + LinesOf(lib, rs[1..])
  }

  lemma {:induction false} LinesOfRendered(lib: Libraries, rs: seq<Receipt>)
    requires FaithfulText(lib)
    ensures NonEmpty(SplitLines(Render(lib, rs))) == LinesOf(lib, rs)
  {
    if rs != [] {
      LinesOfRendered(lib, rs[1..]);
      SplitAtNewline(lib.line(rs[0]), Render(lib, rs[1..]));
      var parts := SplitLines(Render(lib, rs));
      assert parts[0] == lib.line(rs[0]) && parts[1..] == SplitLines(Render(lib, rs[1..]));
    }
  }

  lemma ChainedStep(lib: Libraries, acc: seq<Receipt>, r: Receipt)
    ensures Chained(lib, acc + [r]) <==>
      Chained(lib, acc) && r.payload.receiptId !in Ids(acc) && RecordProblem(lib, r, LastHash(acc)) == ""
  {
  }

  lemma {:induction false} LoadRendered(lib: Libraries, acc: seq<Receipt>, rs: seq<Receipt>)
    requires FaithfulText(lib)
    requires Chained(lib, acc + rs)
    ensures Load(lib, LinesOf(lib, rs), acc) == Some(acc + rs)
    decreases |rs|
  {
    hide RecordProblem, FaithfulText, Chained, Ids, LastHash;
    if rs == [] {
      assert acc + rs == acc;
    } else {
      assert acc + rs == acc + [rs[0]] + rs[1..];
      ChainedPrefix(lib, acc + rs, |acc| + 1);
      assert (acc + rs)[..|acc| + 1] == acc + [rs[0]];
      ChainedStep(lib, acc, rs[0]);
      LoadRendered(lib, acc + [rs[0]], rs[1..]);
      ParsesBack(lib, rs[0]);
      assert LinesOf(lib, rs)[1..] == LinesOf(lib, rs[1..]);
    }
  }

  lemma ParsesBack(lib: Libraries, r: Receipt)
    requires FaithfulText(lib)
    ensures lib.parse(lib.line(r)) == Some(r)
    ensures lib.line(r) != "" && '\n' !in lib.line(r)
  {
  }

  lemma {:induction false} RenderEndsLine(lib: Libraries, rs: seq<Receipt>)
    ensures Render(lib, rs) != "" ==> Render(lib, rs)[|Render(lib, rs)| - 1] == '\n'
  {
    if rs != [] {
      RenderEndsLine(lib, rs[1..]);
    }
  }

  /** Opening the text of a chained list gives back that list, hence the memory of the process that wrote it. */
  lemma Reopen(lib: Libraries, rs: seq<Receipt>)
    requires FaithfulText(lib) && Chained(lib, rs)
    ensures Open(lib, Render(lib, rs)) == Some(rs)
  {
    hide FaithfulText, Chained, Load, NonEmpty, SplitLines;
    RenderEndsLine(lib, rs);
    LinesOfRendered(lib, rs);
    assert [] + rs == rs;
    LoadRendered(lib, [], rs);
  }

  /** A run of appends without failures can be closed and reopened without losing anything. */
  lemma {:induction false} RunThenReopen(lib: Libraries, ops: seq<Op>)
    requires FaithfulText(lib)
    requires |Run(lib, MemoryOf(lib, []), "", ops).2| == |ops|
    ensures var (mem, file, completed) := Run(lib, MemoryOf(lib, []), "", ops);
      Open(lib, file) == Some(completed) && MemoryOf(lib, completed) == mem
  {
    hide FaithfulText;
    RunRefines(lib, MemoryOf(lib, []), "", [], ops);
    var (mem, file, completed) := Run(lib, MemoryOf(lib, []), "", ops);
    assert [] + completed == completed;
    FileIsRendered(lib, ops);
    Reopen(lib, completed);
  }

  lemma {:induction false} CompletedAtMost(lib: Libraries, mem: Memory, file: string, ops: seq<Op>)
    ensures |Run(lib, mem, file, ops).2| <= |ops|
  {
    hide AppendTo;
    if ops != [] {
      CompletedAtMost(lib, mem, file, ops[..|ops| - 1]);
    }
  }

  lemma {:induction false} FileIsRendered(lib: Libraries, ops: seq<Op>)
    requires |Run(lib, MemoryOf(lib, []), "", ops).2| == |ops|
    ensures var (mem, file, completed) := Run(lib, MemoryOf(lib, []), "", ops);
      file == Render(lib, completed)
  {
    if ops != [] {
      hide AppendTo, RecordProblem, Refines;
      var front, op := ops[..|ops| - 1], ops[|ops| - 1];
      CompletedAtMost(lib, MemoryOf(lib, []), "", front);
      RefinesEmpty(lib);
      RunRefines(lib, MemoryOf(lib, []), "", [], front);
      var (m, f, rs) := Run(lib, MemoryOf(lib, []), "", front);
      assert [] + rs == rs;
      AppendRefines(lib, m, f, rs, op.receipt, op.io);
    }
  }

  lemma RefinesEmpty(lib: Libraries)
    ensures Refines(lib, MemoryOf(lib, []), "", [])
  {
  }

  lemma {:induction false} LoadIsChained(lib: Libraries, lines: seq<string>, acc: seq<Receipt>)
    requires Chained(lib, acc)
    requires Load(lib, lines, acc).Some?
    ensures Chained(lib, Load(lib, lines, acc).value)
    decreases |lines|
  {
    hide RecordProblem, Chained;
    if lines != [] {
      var r := lib.parse(lines[0]).value;
      ChainedStep(lib, acc, r);
      LoadIsChained(lib, lines[1..], acc + [r]);
    }
  }

  /** Whatever file opens, its records form a chain. */
  lemma OpenIsChained(lib: Libraries, file: string)
    requires Open(lib, file).Some?
    ensures Chained(lib, Open(lib, file).value)
  {
    LoadIsChained(lib, NonEmpty(SplitLines(file)), []);
  }

  /** No forks: two files that open and end in the same hash hold the same records in the same order. */
  lemma NoForks(lib: Libraries, f: string, g: string)
    requires CollisionFree(lib)
    requires Open(lib, f).Some? && Open(lib, g).Some?
    requires LastHash(Open(lib, f).value) == LastHash(Open(lib, g).value)
    ensures Open(lib, f) == Open(lib, g)
  {
    hide CollisionFree, Chained, Open;
    OpenIsChained(lib, f);
    OpenIsChained(lib, g);
    LastHashPinsChain(lib, Open(lib, f).value, Open(lib, g).value);
  }

  /** A file that breaks off inside a line does not open. */
  lemma TornTailRefused(lib: Libraries, rs: seq<Receipt>, r: Receipt, n: nat)
    requires FaithfulText(lib)
    requires 0 < n < |lib.line(r) + "\n"|
    ensures Open(lib, Render(lib, rs) + Upto(lib.line(r) + "\n", n)).None?
  {
  }
}
