/**
 * Canonical JSON text: keys sorted, numbers rounded to six places, no blanks.
 * `Canonicalize` follows the source; `Read` is a reader for its results, and
 * together they show that one text stands for one value.
 */
module Json {
  import opened Basics
  import opened JsonText
  import opened SortByKey

  datatype Json =
    | Null
    | Bool(b: bool)
    | Num(x: JsonNumber)
    | Str(s: string)
    | Arr(elems: seq<Json>)
    | Obj(fields: seq<Entry<Json>>)

  // ---------------------------------------------------------------- the serialiser

  function Join(parts: seq<string>): string
  {
    if parts == [] then "" else if |parts| == 1 then parts[0] else parts[0] + "," + Join(parts[1..])
  }

  function Member(e: Entry<string>): string
  {
    Quote(e.key) + ":" + e.value
  }

  function Members(es: seq<Entry<string>>): (r: seq<string>)
    ensures |r| == |es| && forall i :: 0 <= i < |r| ==> r[i] == Member(es[i])
  {
    seq(|es|, i requires 0 <= i < |es| => Member(es[i]))
  }

  function Canonicalize(v: Json): string
    decreases v, 1
  {
    match v
    case Null => "null"
    case Bool(b) => if b then "true" else "false"
    case Num(x) => NumberText(Round6(x))
    case Str(s) => Quote(s)
    case Arr(elems) => "[" + Join(CanonicalizeAll(elems)) + "]"
    case Obj(fields) => "{" + Join(Members(Sort(CanonicalizeFields(fields)))) + "}"
  }

  function CanonicalizeAll(vs: seq<Json>): (r: seq<string>)
    ensures |r| == |vs| && forall i :: 0 <= i < |vs| ==> r[i] == Canonicalize(vs[i])
    decreases vs, 0
  {
    if vs == [] then [] else [Canonicalize(vs[0])] + CanonicalizeAll(vs[1..])
  }

  function CanonicalizeFields(fs: seq<Entry<Json>>): (r: seq<Entry<string>>)
    ensures |r| == |fs| && forall i :: 0 <= i < |fs| ==> r[i] == Entry(fs[i].key, Canonicalize(fs[i].value))
    decreases fs, 0
  {
    if fs == [] then [] else [Entry(fs[0].key, Canonicalize(fs[0].value))] + CanonicalizeFields(fs[1..])
  }

  // ---------------------------------------------------------------- equality up to order and rounding

  /** Objects do not repeat keys. */
  ghost predicate WellFormed(v: Json)
  {
    match v
    case Arr(elems) => forall i :: 0 <= i < |elems| ==> WellFormed(elems[i])
    case Obj(fields) => DistinctKeys(fields) && forall i :: 0 <= i < |fields| ==> WellFormed(fields[i].value)
    case _ => true
  }

  /** Equal up to the order of object keys and rounding to six decimal places. */
  ghost predicate Equivalent(v: Json, w: Json)
    decreases v, 1
  {
    match (v, w)
    case (Num(x), Num(y)) => Round6(x) == Round6(y)
    case (Arr(a), Arr(b)) => |a| == |b| && forall i :: 0 <= i < |a| ==> Equivalent(a[i], b[i])
    case (Obj(f), Obj(g)) => SameObject(f, g)
    case _ => v == w
  }

  ghost predicate SameObject(f: seq<Entry<Json>>, g: seq<Entry<Json>>)
    decreases f, 1
  {
    && (forall i :: 0 <= i < |f| ==> Matched(f[i], g))
    && (forall j :: 0 <= j < |g| ==> HasKey(f, g[j].key))
  }

  ghost predicate Matched(e: Entry<Json>, g: seq<Entry<Json>>)
    decreases e, 3
  {
    exists j :: 0 <= j < |g| && SameField(e, g[j])
  }

  ghost predicate HasKey(f: seq<Entry<Json>>, key: string)
  {
    exists i :: 0 <= i < |f| && f[i].key == key
  }

  ghost predicate SameField(e: Entry<Json>, d: Entry<Json>)
    decreases e, 2
  {
    e.key == d.key && Equivalent(e.value, d.value)
  }

  /** The representative of a value: rounded numbers, sorted fields. */
  function Normalize(v: Json): Json
    decreases v, 1
  {
    match v
    case Num(x) => Num(FromMicro(Round6(x)))
    case Arr(elems) => Arr(NormalizeAll(elems))
    case Obj(fields) => Obj(Sort(NormalizeFields(fields)))
    case _ => v
  }

  function NormalizeAll(vs: seq<Json>): (r: seq<Json>)
    ensures |r| == |vs| && forall i :: 0 <= i < |vs| ==> r[i] == Normalize(vs[i])
    decreases vs, 0
  {
    if vs == [] then [] else [Normalize(vs[0])] + NormalizeAll(vs[1..])
  }

  function NormalizeFields(fs: seq<Entry<Json>>): (r: seq<Entry<Json>>)
    ensures |r| == |fs| && forall i :: 0 <= i < |fs| ==> r[i] == Entry(fs[i].key, Normalize(fs[i].value))
    decreases fs, 0
  {
    if fs == [] then [] else [Entry(fs[0].key, Normalize(fs[0].value))] + NormalizeFields(fs[1..])
  }

  // ---------------------------------------------------------------- one text, one value

  /** A value as it stands, fields in the order given. */
  function Print(v: Json): string
    decreases v, 1
  {
    match v
    case Arr(elems) => "[" + Join(PrintAll(elems)) + "]"
    case Obj(fields) => "{" + Join(Members(PrintFields(fields))) + "}"
    case _ => Canonicalize(v)
  }

  function PrintAll(vs: seq<Json>): (r: seq<string>)
    ensures |r| == |vs| && forall i :: 0 <= i < |vs| ==> r[i] == Print(vs[i])
    decreases vs, 0
  {
    if vs == [] then [] else [Print(vs[0])] + PrintAll(vs[1..])
  }

  function PrintFields(fs: seq<Entry<Json>>): (r: seq<Entry<string>>)
    ensures |r| == |fs| && forall i :: 0 <= i < |fs| ==> r[i] == Entry(fs[i].key, Print(fs[i].value))
    decreases fs, 0
  {
    if fs == [] then [] else [Entry(fs[0].key, Print(fs[0].value))] + PrintFields(fs[1..])
  }

  /** Canonical text is the plain text of the representative. */
  lemma {:induction false} CanonicalizeIsPrint(v: Json)
    ensures Canonicalize(v) == Print(Normalize(v))
    decreases v
  {
    match v
    case Num(x) =>
    case Arr(elems) =>
      forall i | 0 <= i < |elems|
        ensures CanonicalizeAll(elems)[i] == PrintAll(NormalizeAll(elems))[i]
      {
        CanonicalizeIsPrint(elems[i]);
      }
      assert CanonicalizeAll(elems) == PrintAll(NormalizeAll(elems));
    case Obj(fields) =>
      forall i | 0 <= i < |fields|
        ensures CanonicalizeFields(fields)[i] == PrintFields(NormalizeFields(fields))[i]
      {
        CanonicalizeIsPrint(fields[i].value);
      }
      var n := NormalizeFields(fields);
      assert CanonicalizeFields(fields) == PrintFields(n);
      SortRenamed(n, PrintFields(n), (w: Json) => Print(w));
      assert Sort(PrintFields(n)) == PrintFields(Sort(n));
    case _ =>
  }

  function ReadValue(s: string): (r: Option<(Json, string)>)
    ensures r.Some? ==> |r.value.1| < |s|
    decreases |s|, 1
  {
    if s == [] then None
    else if StartsWith(s, "null") then Some((Null, s[4..]))
    else if StartsWith(s, "true") then Some((Bool(true), s[4..]))
    else if StartsWith(s, "false") then Some((Bool(false), s[5..]))
    else if s[0] == '"' then
      match ReadChars(s[1..])
      case None => None
      case Some((t, rest)) => Some((Str(t), rest))
    else if s[0] == '[' then
      if |s| > 1 && s[1] == ']' then Some((Arr([]), s[2..]))
      else
        match ReadElems(s[1..])
        case None => None
        case Some((vs, rest)) => Some((Arr(vs), rest))
    else if s[0] == '{' then
      if |s| > 1 && s[1] == '}' then Some((Obj([]), s[2..]))
      else
        match ReadFields(s[1..])
        case None => None
        case Some((fs, rest)) => Some((Obj(fs), rest))
    else
      match ReadNumber(s)
      case None => None
      case Some((m, rest)) => Some((Num(FromMicro(m)), rest))
  }

  /** The elements of an array up to and including the closing bracket. */
  function ReadElems(s: string): (r: Option<(seq<Json>, string)>)
    ensures r.Some? ==> |r.value.1| < |s|
    decreases |s|, 2
  {
    match ReadValue(s)
    case None => None
    case Some((v, rest)) =>
      if rest == [] then None
      else if rest[0] == ']' then Some(([v], rest[1..]))
      else if rest[0] != ',' then None
      else
        match ReadElems(rest[1..])
        case None => None
        case Some((vs, tail)) => Some(([v] + vs, tail))
  }

  function ReadField(s: string): (r: Option<(Entry<Json>, string)>)
    ensures r.Some? ==> |r.value.1| < |s|
    decreases |s|, 1
  {
    if s == [] || s[0] != '"' then None
    else
      match ReadChars(s[1..])
      case None => None
      case Some((k, rest)) =>
        if rest == [] || rest[0] != ':' then None
        else
          match ReadValue(rest[1..])
          case None => None
          case Some((v, tail)) => Some((Entry(k, v), tail))
  }

  function ReadFields(s: string): (r: Option<(seq<Entry<Json>>, string)>)
    ensures r.Some? ==> |r.value.1| < |s|
    decreases |s|, 2
  {
    match ReadField(s)
    case None => None
    case Some((e, rest)) =>
      if rest == [] then None
      else if rest[0] == '}' then Some(([e], rest[1..]))
      else if rest[0] != ',' then None
      else
        match ReadFields(rest[1..])
        case None => None
        case Some((es, tail)) => Some(([e] + es, tail))
  }

  /** Reads a whole text. */
  function Read(s: string): Option<Json>
  {
    match ReadValue(s)
    case None => None
    case Some((v, rest)) => if rest == [] then Some(v) else None
  }

  /** Numbers with at most six decimal places. */
  ghost predicate Rounded(v: Json)
  {
    match v
    case Num(x) => x == FromMicro(Round6(x))
    case Arr(elems) => forall i :: 0 <= i < |elems| ==> Rounded(elems[i])
    case Obj(fields) => forall i :: 0 <= i < |fields| ==> Rounded(fields[i].value)
    case _ => true
  }

  lemma {:induction false} NormalizeRounds(v: Json)
    ensures Rounded(Normalize(v))
    decreases v
  {
    match v
    case Num(x) =>
    case Arr(elems) =>
      forall i | 0 <= i < |elems|
        ensures Rounded(NormalizeAll(elems)[i])
      {
        NormalizeRounds(elems[i]);
      }
    case Obj(fields) =>
      var n := NormalizeFields(fields);
      forall i | 0 <= i < |Sort(n)|
        ensures Rounded(Sort(n)[i].value)
      {
        SortMembers(n, Sort(n)[i]);
        var k :| 0 <= k < |n| && n[k] == Sort(n)[i];
        NormalizeRounds(fields[k].value);
      }
    case _ =>
  }

  /** Reading printed text gives back the value and leaves what follows it. */
  lemma {:induction false} ReadPrinted(v: Json, rest: string)
    requires Rounded(v) && Follows(rest)
    ensures ReadValue(Print(v) + rest) == Some((v, rest))
    decreases v, 1
  {
    match v
    case Null => assert ("null" + rest)[4..] == rest;
    case Bool(b) => ReadBool(b, rest);
    case Num(x) => ReadNum(Round6(x), rest);
    case Str(s) => ReadStr(s, rest);
    case Arr(elems) => ReadArr(elems, rest);
    case Obj(fields) => ReadObj(fields, rest);
  }

  lemma NoKeyword(s: string)
    requires s != [] && s[0] !in {'n', 't', 'f'}
    ensures !StartsWith(s, "null") && !StartsWith(s, "true") && !StartsWith(s, "false")
  {
  }

  lemma ReadBool(b: bool, rest: string)
    ensures ReadValue((if b then "true" else "false") + rest) == Some((Bool(b), rest))
  {
    var word := if b then "true" else "false";
    var s := word + rest;
    assert s[..|word|] == word && s[|word|..] == rest;
    assert StartsWith(s, word);
    assert s[..4][0] == s[0] == word[0];
  }

  lemma ReadNum(m: int, rest: string)
    requires Follows(rest)
    ensures ReadValue(NumberText(m) + rest) == Some((Num(FromMicro(m)), rest))
  {
    hide NumberText, ReadNumber;
    ReadNumberText(m, rest);
    NumberStart(m);
    NoKeyword(NumberText(m) + rest);
  }

  lemma NumberStart(m: int)
    ensures NumberText(m) != [] && (NumberText(m)[0] == '-' || IsDigit(NumberText(m)[0]))
  {
  }

  lemma ReadStr(s: string, rest: string)
    ensures ReadValue(Quote(s) + rest) == Some((Str(s), rest))
  {
    hide ReadChars;
    ReadQuoted(s, rest);
    NoKeyword(Quote(s) + rest);
    assert (Quote(s) + rest)[1..] == EscapedAll(s) + "\"" + rest;
  }

  lemma {:induction false} ReadArr(elems: seq<Json>, rest: string)
    requires Follows(rest)
    requires forall i :: 0 <= i < |elems| ==> Rounded(elems[i])
    ensures ReadValue("[" + Join(PrintAll(elems)) + "]" + rest) == Some((Arr(elems), rest))
    decreases elems, 3
  {
    var inner := Join(PrintAll(elems)) + "]" + rest;
    assert "[" + Join(PrintAll(elems)) + "]" + rest == "[" + inner;
    if elems == [] {
      ReadEmpty(rest);
      assert inner == "]" + rest;
    } else {
      ReadPrintedElems(elems, rest);
      FirstPrinted(elems[0]);
      assert inner[0] == Print(elems[0])[0];
      ReadBracket(inner);
    }
  }

  lemma ReadEmpty(rest: string)
    ensures ReadValue("[" + ("]" + rest)) == Some((Arr([]), rest))
    ensures ReadValue("{" + ("}" + rest)) == Some((Obj([]), rest))
  {
    NoKeyword("[" + ("]" + rest));
    NoKeyword("{" + ("}" + rest));
    assert ("[" + ("]" + rest))[2..] == rest && ("{" + ("}" + rest))[2..] == rest;
  }

  lemma ReadBracket(inner: string)
    requires inner != [] && inner[0] != ']'
    requires ReadElems(inner).Some?
    ensures var (vs, rest) := ReadElems(inner).value; ReadValue("[" + inner) == Some((Arr(vs), rest))
  {
    hide ReadElems;
    NoKeyword("[" + inner);
    assert ("[" + inner)[1..] == inner;
  }

  lemma ReadBrace(inner: string)
    requires inner != [] && inner[0] != '}'
    requires ReadFields(inner).Some?
    ensures var (fs, rest) := ReadFields(inner).value; ReadValue("{" + inner) == Some((Obj(fs), rest))
  {
    hide ReadFields;
    NoKeyword("{" + inner);
    assert ("{" + inner)[1..] == inner;
  }

  /** No value's text begins with a closing bracket or brace. */
  lemma FirstPrinted(v: Json)
    ensures Print(v) != [] && Print(v)[0] != ']' && Print(v)[0] != '}'
  {
  }

  lemma PrintedElemsTail(elems: seq<Json>)
    requires elems != []
    ensures PrintAll(elems)[1..] == PrintAll(elems[1..])
  {
  }

  lemma {:induction false} ReadPrintedElems(elems: seq<Json>, rest: string)
    requires Follows(rest) && elems != []
    requires forall i :: 0 <= i < |elems| ==> Rounded(elems[i])
    ensures ReadElems(Join(PrintAll(elems)) + "]" + rest) == Some((elems, rest))
    decreases elems, 2
  {
    hide ReadValue, ReadElems, Join, Print, PrintAll, Follows, Rounded;
    var parts := PrintAll(elems);
    PrintedElemsTail(elems);
    FollowsMark(rest);
    JoinHead(parts, "]" + rest);
    assert Join(parts) + "]" + rest == Join(parts) + ("]" + rest);
    if |elems| == 1 {
      ReadPrinted(elems[0], "]" + rest);
      LastElem(Print(elems[0]) + ("]" + rest), elems[0], rest);
      assert elems == [elems[0]];
    } else {
      var tail := Join(parts[1..]) + ("]" + rest);
      assert tail == Join(parts[1..]) + "]" + rest;
      FollowsMark(tail);
      ReadPrinted(elems[0], "," + tail);
      ReadPrintedElems(elems[1..], rest);
      MoreElems(Print(elems[0]) + ("," + tail), elems[0], tail, elems[1..], rest);
      assert elems == [elems[0]] + elems[1..];
    }
  }

  lemma JoinHead(parts: seq<string>, rest: string)
    requires parts != []
    ensures Join(parts) + rest ==
      if |parts| == 1 then parts[0] + rest else parts[0] + ("," + (Join(parts[1..]) + rest))
  {
  }

  lemma LastElem(text: string, v: Json, rest: string)
    requires ReadValue(text) == Some((v, "]" + rest))
    ensures ReadElems(text) == Some(([v], rest))
  {
  }

  lemma MoreElems(text: string, v: Json, tail: string, vs: seq<Json>, rest: string)
    requires ReadValue(text) == Some((v, "," + tail))
    requires ReadElems(tail) == Some((vs, rest))
    ensures ReadElems(text) == Some(([v] + vs, rest))
  {
  }

  lemma {:induction false} ReadObj(fields: seq<Entry<Json>>, rest: string)
    requires Follows(rest)
    requires forall i :: 0 <= i < |fields| ==> Rounded(fields[i].value)
    ensures ReadValue("{" + Join(Members(PrintFields(fields))) + "}" + rest) == Some((Obj(fields), rest))
    decreases fields, 3
  {
    var parts := Members(PrintFields(fields));
    var inner := Join(parts) + "}" + rest;
    assert "{" + Join(parts) + "}" + rest == "{" + inner;
    if fields == [] {
      ReadEmpty(rest);
      assert inner == "}" + rest;
    } else {
      ReadPrintedFields(fields, rest);
      assert inner[0] == parts[0][0] == '"';
      ReadBrace(inner);
    }
  }

  lemma {:induction false} ReadPrintedField(e: Entry<Json>, rest: string)
    requires Rounded(e.value) && Follows(rest)
    ensures ReadField(Member(Entry(e.key, Print(e.value))) + rest) == Some((e, rest))
    decreases e, 2
  {
    hide ReadField, ReadValue, ReadChars, EscapedAll, Print, Rounded, Follows;
    var printed := Print(e.value) + rest;
    ReadQuoted(e.key, ":" + printed);
    ReadPrinted(e.value, rest);
    FieldReads(EscapedAll(e.key) + "\"" + (":" + printed), e.key, printed, e.value, rest);
    assert Member(Entry(e.key, Print(e.value))) + rest == "\"" + (EscapedAll(e.key) + "\"" + (":" + printed));
  }

  lemma FieldReads(body: string, key: string, printed: string, v: Json, rest: string)
    requires ReadChars(body) == Some((key, ":" + printed))
    requires ReadValue(printed) == Some((v, rest))
    ensures ReadField("\"" + body) == Some((Entry(key, v), rest))
  {
    hide ReadChars, ReadValue;
    assert ("\"" + body)[1..] == body && (":" + printed)[1..] == printed;
  }

  lemma PrintedTail(fields: seq<Entry<Json>>)
    requires fields != []
    ensures Members(PrintFields(fields))[1..] == Members(PrintFields(fields[1..]))
    ensures Members(PrintFields(fields))[0] == Member(Entry(fields[0].key, Print(fields[0].value)))
    ensures |Members(PrintFields(fields))| == |fields|
  {
  }

  lemma FollowsMark(rest: string)
    ensures Follows("," + rest) && Follows("]" + rest) && Follows("}" + rest)
  {
  }

  lemma {:induction false} ReadPrintedFields(fields: seq<Entry<Json>>, rest: string)
    requires Follows(rest) && fields != []
    requires forall i :: 0 <= i < |fields| ==> Rounded(fields[i].value)
    ensures ReadFields(Join(Members(PrintFields(fields))) + "}" + rest) == Some((fields, rest))
    decreases fields, 2
  {
    hide ReadField, Member, ReadFields, Join, Print, PrintFields, Members, Follows, Rounded;
    var parts := Members(PrintFields(fields));
    PrintedTail(fields);
    FollowsMark(rest);
    JoinHead(parts, "}" + rest);
    assert Join(parts) + "}" + rest == Join(parts) + ("}" + rest);
    if |fields| == 1 {
      ReadPrintedField(fields[0], "}" + rest);
      LastField(parts[0] + ("}" + rest), fields[0], rest);
      assert fields == [fields[0]];
    } else {
      var tail := Join(parts[1..]) + ("}" + rest);
      assert tail == Join(parts[1..]) + "}" + rest;
      FollowsMark(tail);
      ReadPrintedField(fields[0], "," + tail);
      ReadPrintedFields(fields[1..], rest);
      MoreFields(parts[0] + ("," + tail), fields[0], tail, fields[1..], rest);
      assert fields == [fields[0]] + fields[1..];
    }
  }

  lemma LastField(text: string, e: Entry<Json>, rest: string)
    requires ReadField(text) == Some((e, "}" + rest))
    ensures ReadFields(text) == Some(([e], rest))
  {
  }

  lemma MoreFields(text: string, e: Entry<Json>, tail: string, es: seq<Entry<Json>>, rest: string)
    requires ReadField(text) == Some((e, "," + tail))
    requires ReadFields(tail) == Some((es, rest))
    ensures ReadFields(text) == Some(([e] + es, rest))
  {
  }

  // ---------------------------------------------------------------- representatives and equivalence

  lemma {:induction false} NormalizeFieldsSorted(fields: seq<Entry<Json>>)
    requires DistinctKeys(fields)
    ensures Sorted(Sort(NormalizeFields(fields)))
  {
    SortSorted(NormalizeFields(fields));
  }

  lemma {:induction false} NormalizeIdempotent(v: Json)
    requires WellFormed(v)
    ensures Normalize(Normalize(v)) == Normalize(v)
    decreases v
  {
    match v
    case Num(x) =>
    case Arr(elems) =>
      forall i | 0 <= i < |elems|
        ensures NormalizeAll(NormalizeAll(elems))[i] == NormalizeAll(elems)[i]
      {
        NormalizeIdempotent(elems[i]);
      }
      assert NormalizeAll(NormalizeAll(elems)) == NormalizeAll(elems);
    case Obj(fields) =>
      var n := NormalizeFields(fields);
      var s := Sort(n);
      forall i | 0 <= i < |s|
        ensures NormalizeFields(s)[i] == s[i]
      {
        SortMembers(n, s[i]);
        var k :| 0 <= k < |n| && n[k] == s[i];
        NormalizeIdempotent(fields[k].value);
      }
      assert NormalizeFields(s) == s;
      SortTwice(n);
    case _ =>
  }

  lemma SortTwice(n: seq<Entry<Json>>)
    requires DistinctKeys(n)
    ensures Sort(Sort(n)) == Sort(n)
  {
    SortSorted(n);
    SortedDistinct(Sort(n));
    SortSorted(Sort(n));
    forall e
      ensures e in Sort(Sort(n)) <==> e in Sort(n)
    {
      SortMembers(Sort(n), e);
    }
    SortedUnique(Sort(Sort(n)), Sort(n));
  }

  /** Two values have the same representative exactly when they are equal up to order and rounding. */
  lemma {:induction false} SameRepresentative(v: Json, w: Json)
    requires WellFormed(v) && WellFormed(w)
    ensures Normalize(v) == Normalize(w) <==> Equivalent(v, w)
    decreases v
  {
    match (v, w)
    case (Num(x), Num(y)) =>
    case (Arr(a), Arr(b)) => SameElems(a, b);
    case (Obj(f), Obj(g)) => SameFields(f, g);
    case _ =>
  }

  lemma {:induction false} SameElems(a: seq<Json>, b: seq<Json>)
    requires forall i :: 0 <= i < |a| ==> WellFormed(a[i])
    requires forall i :: 0 <= i < |b| ==> WellFormed(b[i])
    ensures NormalizeAll(a) == NormalizeAll(b) <==> Equivalent(Arr(a), Arr(b))
    decreases a
  {
    if |a| == |b| {
      forall i | 0 <= i < |a|
        ensures NormalizeAll(a)[i] == NormalizeAll(b)[i] <==> Equivalent(a[i], b[i])
      {
        SameRepresentative(a[i], b[i]);
      }
      if Equivalent(Arr(a), Arr(b)) {
        assert NormalizeAll(a) == NormalizeAll(b);
      }
    }
  }

  lemma {:induction false} SameFields(f: seq<Entry<Json>>, g: seq<Entry<Json>>)
    requires DistinctKeys(f) && DistinctKeys(g)
    requires forall i :: 0 <= i < |f| ==> WellFormed(f[i].value)
    requires forall i :: 0 <= i < |g| ==> WellFormed(g[i].value)
    ensures Sort(NormalizeFields(f)) == Sort(NormalizeFields(g)) <==> Equivalent(Obj(f), Obj(g))
    decreases f
  {
    var nf, ng := NormalizeFields(f), NormalizeFields(g);
    forall i, j | 0 <= i < |f| && 0 <= j < |g|
      ensures nf[i] == ng[j] <==> SameField(f[i], g[j])
    {
      SameRepresentative(f[i].value, g[j].value);
    }
    hide Equivalent, SameField, WellFormed, Sort, SameObject, Normalize;
    assert Represent(f, g, nf, ng);
    SameMembersIff(f, g, nf, ng);
    NormalizeFieldsSorted(f);
    NormalizeFieldsSorted(g);
    SameSortIff(nf, ng);
    EquivalentObjects(f, g);
  }

  lemma EquivalentObjects(f: seq<Entry<Json>>, g: seq<Entry<Json>>)
    ensures Equivalent(Obj(f), Obj(g)) <==> SameObject(f, g)
  {
  }

  lemma SameSortIff(nf: seq<Entry<Json>>, ng: seq<Entry<Json>>)
    requires Sorted(Sort(nf)) && Sorted(Sort(ng))
    ensures Sort(nf) == Sort(ng) <==> forall e :: e in nf <==> e in ng
  {
    hide Sort;
    forall e
      ensures e in Sort(nf) <==> e in nf
      ensures e in Sort(ng) <==> e in ng
    {
      SortMembers(nf, e);
      SortMembers(ng, e);
    }
    if forall e :: e in nf <==> e in ng {
      SortedUnique(Sort(nf), Sort(ng));
    }
  }

  /** `nf` and `ng` carry the keys of `f` and `g`, and agree entry by entry where `f` and `g` do. */
  ghost predicate Represent(f: seq<Entry<Json>>, g: seq<Entry<Json>>, nf: seq<Entry<Json>>, ng: seq<Entry<Json>>)
  {
    && |nf| == |f| && (forall i :: 0 <= i < |f| ==> nf[i].key == f[i].key)
    && |ng| == |g| && (forall i :: 0 <= i < |g| ==> ng[i].key == g[i].key)
    && DistinctKeys(ng)
    && forall i, j :: 0 <= i < |f| && 0 <= j < |g| ==> (nf[i] == ng[j] <==> SameField(f[i], g[j]))
  }

  lemma SameMembersIff(f: seq<Entry<Json>>, g: seq<Entry<Json>>, nf: seq<Entry<Json>>, ng: seq<Entry<Json>>)
    requires Represent(f, g, nf, ng)
    ensures (forall e :: e in nf <==> e in ng) <==> SameObject(f, g)
  {
    hide SameField, SameObject, Represent;
    if forall e :: e in nf <==> e in ng {
      SameMembersThenObject(f, g, nf, ng);
    }
    if SameObject(f, g) {
      SameObjectThenMembers(f, g, nf, ng);
    }
  }

  lemma SameMembersThenObject(f: seq<Entry<Json>>, g: seq<Entry<Json>>, nf: seq<Entry<Json>>, ng: seq<Entry<Json>>)
    requires Represent(f, g, nf, ng)
    requires forall e :: e in nf <==> e in ng
    ensures SameObject(f, g)
  {
    forall i | 0 <= i < |f|
      ensures Matched(f[i], g)
    {
      hide SameField, HasKey;
      assert nf[i] in nf;
      var j :| 0 <= j < |ng| && ng[j] == nf[i];
      assert SameField(f[i], g[j]);
    }
    forall j | 0 <= j < |g|
      ensures HasKey(f, g[j].key)
    {
      hide SameField, Matched;
      assert ng[j] in ng;
      var i :| 0 <= i < |nf| && nf[i] == ng[j];
      assert f[i].key == g[j].key;
    }
  }

  lemma FindMatch(e: Entry<Json>, g: seq<Entry<Json>>) returns (j: nat)
    requires Matched(e, g)
    ensures j < |g| && SameField(e, g[j])
  {
    j :| 0 <= j < |g| && SameField(e, g[j]);
  }

  lemma FindKey(f: seq<Entry<Json>>, key: string) returns (i: nat)
    requires HasKey(f, key)
    ensures i < |f| && f[i].key == key
  {
    i :| 0 <= i < |f| && f[i].key == key;
  }

  lemma SameObjectThenMembers(f: seq<Entry<Json>>, g: seq<Entry<Json>>, nf: seq<Entry<Json>>, ng: seq<Entry<Json>>)
    requires Represent(f, g, nf, ng)
    requires SameObject(f, g)
    ensures forall e :: e in nf <==> e in ng
  {
  }

  /** Canonical text can be read back, up to order and rounding. */
  lemma {:induction false} ReadCanonical(v: Json)
    ensures Read(Canonicalize(v)) == Some(Normalize(v))
  {
    hide ReadValue, Rounded, Print;
    CanonicalizeIsPrint(v);
    NormalizeRounds(v);
    ReadPrinted(Normalize(v), "");
    assert Canonicalize(v) + "" == Canonicalize(v);
  }

  /** Canonical text with more behind it is not one value. */
  lemma NothingMayFollow(v: Json, more: string)
    requires more != "" && Follows(more)
    ensures Read(Canonicalize(v) + more) == None
  {
    hide ReadValue, Rounded, Print;
    CanonicalizeIsPrint(v);
    NormalizeRounds(v);
    ReadPrinted(Normalize(v), more);
  }

  /** The text of a number is that of the nearest whole millionth, and reads back as it. */
  lemma NumberIsRounded(x: JsonNumber)
    ensures var r := Read(Canonicalize(Num(x)));
      r.Some? && r.value.Num? && exists m :: Nearest(m, x) && r.value.x == m as real / 1000000.0
    ensures Read(Canonicalize(Num(x))).value.x - 0.0000005 <= x <= Read(Canonicalize(Num(x))).value.x + 0.0000005
  {
    hide Read, Canonicalize;
    ReadCanonical(Num(x));
    RoundsToNearest(x, Round6(x));
  }

  /** Numbers are equal up to rounding exactly when they have the same nearest millionth. */
  lemma EquivalentNumbers(x: JsonNumber, y: JsonNumber)
    ensures Equivalent(Num(x), Num(y)) <==> exists m :: Nearest(m, x) && Nearest(m, y)
  {
    hide Nearest, Round6;
    RoundsToNearest(x, Round6(x));
    RoundsToNearest(y, Round6(x));
    if m :| Nearest(m, x) && Nearest(m, y) {
      RoundsToNearest(x, m);
      RoundsToNearest(y, m);
    }
  }

  /** Canonical text is uniquely decodable: one text, one value up to key order and rounding. */
  lemma {:induction false} UniquelyDecodable(v: Json, w: Json)
    requires WellFormed(v) && WellFormed(w)
    ensures Canonicalize(v) == Canonicalize(w) <==> Equivalent(v, w)
  {
    hide Canonicalize, Normalize, Equivalent, Read, WellFormed;
    SameRepresentative(v, w);
    ReadCanonical(v);
    ReadCanonical(w);
    CanonicalizeIsPrint(v);
    CanonicalizeIsPrint(w);
  }

  /** Reading canonical text and serialising again reproduces the text. */
  lemma {:induction false} RoundTrip(v: Json)
    requires WellFormed(v)
    ensures Read(Canonicalize(v)).Some?
    ensures Canonicalize(Read(Canonicalize(v)).value) == Canonicalize(v)
  {
    hide Canonicalize, Normalize, Read, WellFormed;
    ReadCanonical(v);
    NormalizeIdempotent(v);
    CanonicalizeIsPrint(v);
    CanonicalizeIsPrint(Normalize(v));
  }
}
