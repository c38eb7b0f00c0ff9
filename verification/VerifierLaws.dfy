/** What the verifier promises over sequences of calls that share one nonce ledger. */
module VerifierLaws {
  import opened Basics
  import opened SortByKey
  import opened Json
  import opened Verifier

  datatype Call = Call(env: Option<Fields>, actual: Execution, now: int, trusted: map<string, Key>)

  /** Decoded objects do not repeat keys, nor do parameter maps. */
  ghost predicate WellFormedCall(c: Call)
  {
    && (c.env.Some? ==> WellFormed(Obj(c.env.value)))
    && (c.actual.params.Some? ==> WellFormed(Obj(c.actual.params.value)))
  }

  ghost function OutcomeOf(lib: Libraries, c: Call, spent: set<string>): (Result, set<string>)
  {
    Outcome(lib, c.env, c.actual, c.now, c.trusted, spent)
  }

  /** A session: the results of calls that share one ledger, and the spent nonces before, between and after them. */
  ghost predicate Session(lib: Libraries, calls: seq<Call>, results: seq<Result>, spent: seq<set<string>>)
  {
    && |results| == |calls| && |spent| == |calls| + 1
    && forall i {:trigger OutcomeOf(lib, calls[i], spent[i])} :: 0 <= i < |calls| ==>
         (results[i], spent[i + 1]) == OutcomeOf(lib, calls[i], spent[i])
  }

  function NonceOf(c: Call): string
  {
    if c.env.None? then "" else StrAt(AuthorityBody(c.env.value), "nonce")
  }

  lemma PassedChecks(lib: Libraries, env: Fields, actual: Execution, now: int, trusted: map<string, Key>)
    requires AuthorityProblem(lib, env, actual, now, trusted) == ""
    ensures var body := AuthorityBody(env);
      && Signer(lib, env, trusted).Some?
      && GoText(Obj(body)).Some?
      && Digest(lib, GoText(Obj(body)).value) == StrAt(env, "bindingHash")
      && lib.verify(Signer(lib, env, trusted).value.0, StrAt(env, "bindingHash"), Signer(lib, env, trusted).value.1)
      && StrAt(body, "type") == "TTPExecutionAuthority"
      && TimeProblem(lib, body, now) == ""
      && ExecutionProblem(body, actual) == ""
  {
    hide Signer, SignerProblem, GoText, TimeProblem, ExecutionProblem, Without, StrAt;
  }

  lemma PassedExecution(body: Fields, actual: Execution)
    requires ExecutionProblem(body, actual) == ""
    ensures actual.principal == StrAt(body, "principal")
    ensures actual.action == StrAt(body, "action")
    ensures actual.target == StrAt(body, "target")
    ensures StrAt(body, "nonce") != ""
    ensures ObjAt(body, "materialParams").Some?
    ensures var params := Obj(if actual.params.None? then [] else actual.params.value);
            GoText(params).Some? && GoText(Obj(ObjAt(body, "materialParams").value)) == GoText(params)
  {
    hide GoText, StrAt, ObjAt;
  }

  /** A call is allowed by spending exactly its own nonce; a denied call spends nothing. */
  lemma SpendsExactlyWhenAllowed(lib: Libraries, c: Call, spent: set<string>)
    ensures var (result, spent') := OutcomeOf(lib, c, spent);
      if result.allowed
      then NonceOf(c) != "" && NonceOf(c) !in spent && spent' == spent + {NonceOf(c)}
      else spent' == spent
  {
    hide AuthorityProblem, ExecutionProblem, StrAt;
    if c.env.Some? && AuthorityProblem(lib, c.env.value, c.actual, c.now, c.trusted) == "" {
      PassedChecks(lib, c.env.value, c.actual, c.now, c.trusted);
      PassedExecution(AuthorityBody(c.env.value), c.actual);
    }
  }

  /** At every point exactly the nonces of the calls allowed so far have been spent in addition. */
  lemma {:induction false} SpentExactly(lib: Libraries, calls: seq<Call>, results: seq<Result>,
                                        spent: seq<set<string>>, n: nat)
    requires Session(lib, calls, results, spent) && n <= |calls|
    ensures spent[n] == spent[0] + (set i | 0 <= i < n && results[i].allowed :: NonceOf(calls[i]))
    ensures forall i :: 0 <= i < n && results[i].allowed ==> NonceOf(calls[i]) !in spent[0]
  {
    hide OutcomeOf, NonceOf;
    if n > 0 {
      SpentExactly(lib, calls, results, spent, n - 1);
      SpendsExactlyWhenAllowed(lib, calls[n - 1], spent[n - 1]);
      assert (results[n - 1], spent[(n - 1) + 1]) == OutcomeOf(lib, calls[n - 1], spent[n - 1]);
    }
  }

  /** Over any sequence of calls sharing a ledger, a nonce is allowed at most once. */
  lemma NonceAllowedOnce(lib: Libraries, calls: seq<Call>, results: seq<Result>, spent: seq<set<string>>, i: nat,
                         j: nat)
    requires Session(lib, calls, results, spent) && i < j < |calls|
    requires results[i].allowed && results[j].allowed
    ensures NonceOf(calls[i]) != NonceOf(calls[j])
    ensures NonceOf(calls[i]) !in spent[0] && NonceOf(calls[j]) !in spent[0]
  {
    hide OutcomeOf, NonceOf;
    SpentExactly(lib, calls, results, spent, j);
    SpendsExactlyWhenAllowed(lib, calls[j], spent[j]);
    assert (results[j], spent[j + 1]) == OutcomeOf(lib, calls[j], spent[j]);
  }

  // ---------------------------------------------------------------- what was signed is what is executed

  lemma {:induction false} WithoutMembers(fs: Fields, keys: set<string>, e: Entry<Json>)
    ensures e in Without(fs, keys) <==> e in fs && e.key !in keys
  {
    if fs != [] {
      WithoutMembers(fs[1..], keys, e);
      assert fs == [fs[0]] + fs[1..];
    }
  }

  lemma {:induction false} WithoutWellFormed(fs: Fields, keys: set<string>)
    requires WellFormed(Obj(fs))
    ensures WellFormed(Obj(Without(fs, keys)))
  {
    if fs != [] {
      assert WellFormed(Obj(fs[1..]));
      WithoutWellFormed(fs[1..], keys);
      forall i | 0 <= i < |Without(fs[1..], keys)|
        ensures Without(fs[1..], keys)[i].key != fs[0].key
      {
        WithoutMembers(fs[1..], keys, Without(fs[1..], keys)[i]);
      }
    }
  }

  lemma {:induction false} LookupMember(fs: Fields, i: nat)
    requires DistinctKeys(fs) && i < |fs|
    ensures Lookup(fs, fs[i].key) == Some(fs[i].value)
  {
    if i != 0 {
      LookupMember(fs[1..], i - 1);
    }
  }

  lemma {:induction false} LookupFinds(fs: Fields, key: string) returns (i: nat)
    requires Lookup(fs, key).Some?
    ensures i < |fs| && fs[i] == Entry(key, Lookup(fs, key).value)
  {
    if fs[0].key == key {
      i := 0;
    } else {
      i := LookupFinds(fs[1..], key);
      i := i + 1;
    }
  }

  lemma LookupWellFormed(fs: Fields, key: string)
    requires WellFormed(Obj(fs)) && Lookup(fs, key).Some?
    ensures WellFormed(Lookup(fs, key).value)
  {
  }

  /**
   * What was signed is what is executed: the same principal, action and
   * target, and parameters equal to the signed ones up to key order and rounding.
   */
  ghost predicate ExecutesSigned(c: Call)
  {
    && c.env.Some?
    && var body := AuthorityBody(c.env.value);
      && StrAt(body, "type") == "TTPExecutionAuthority"
      && c.actual.principal == StrAt(body, "principal")
      && c.actual.action == StrAt(body, "action")
      && c.actual.target == StrAt(body, "target")
      && ObjAt(body, "materialParams").Some?
      && Equivalent(Obj(if c.actual.params.None? then [] else c.actual.params.value),
                    Obj(ObjAt(body, "materialParams").value))
  }

  /** Every allowed call of a session runs what was signed. */
  lemma AllowedMeansSigned(lib: Libraries, calls: seq<Call>, results: seq<Result>, spent: seq<set<string>>, i: nat)
    requires Session(lib, calls, results, spent) && i < |calls|
    requires WellFormedCall(calls[i]) && results[i].allowed
    ensures ExecutesSigned(calls[i])
  {
    hide OutcomeOf, ExecutesSigned, WellFormedCall;
    assert (results[i], spent[i + 1]) == OutcomeOf(lib, calls[i], spent[i]);
    AllowedCallSigned(lib, calls[i], spent[i]);
  }

  lemma AllowedCallSigned(lib: Libraries, c: Call, spent: set<string>)
    requires WellFormedCall(c)
    requires OutcomeOf(lib, c, spent).0.allowed
    ensures ExecutesSigned(c)
  {
    hide Equivalent, WellFormed, Canonicalize, InRange, AuthorityProblem, ExecutionProblem, StrAt, ObjAt, Without;
    var body := AuthorityBody(c.env.value);
    PassedChecks(lib, c.env.value, c.actual, c.now, c.trusted);
    PassedExecution(body, c.actual);
    var params := if c.actual.params.None? then [] else c.actual.params.value;
    var material := ObjAt(body, "materialParams").value;
    WithoutWellFormed(c.env.value, {"signature", "signerPublicKey", "bindingHash"});
    MaterialWellFormed(body);
    EmptyWellFormed();
    UniquelyDecodable(Obj(params), Obj(material));
  }

  lemma MaterialWellFormed(body: Fields)
    requires WellFormed(Obj(body)) && ObjAt(body, "materialParams").Some?
    ensures WellFormed(Obj(ObjAt(body, "materialParams").value))
  {
    hide WellFormed;
    LookupWellFormed(body, "materialParams");
  }

  lemma EmptyWellFormed()
    ensures WellFormed(Obj([]))
  {
  }

  /** A trusted key, named by its own fingerprint, verifies the binding hash of the call's body, in its time window. */
  ghost predicate Verified(lib: Libraries, c: Call, bindingHash: string)
  {
    && c.env.Some? && InRange(Obj(AuthorityBody(c.env.value)))
    && bindingHash == Digest(lib, Canonicalize(Obj(AuthorityBody(c.env.value))))
    && (exists kid, bytes ::
          && kid in c.trusted && lib.keyId(c.trusted[kid]) == Some(kid)
          && lib.verify(c.trusted[kid], bindingHash, bytes))
    && var body := AuthorityBody(c.env.value);
      && lib.parseTime(StrAt(body, "issuedAt")).Some?
      && lib.parseTime(StrAt(body, "expiresAt")).Some?
      && lib.parseTime(StrAt(body, "issuedAt")).value <= c.now < lib.parseTime(StrAt(body, "expiresAt")).value
  }

  lemma AllowedMeansVerified(lib: Libraries, calls: seq<Call>, results: seq<Result>, spent: seq<set<string>>, i: nat)
    requires Session(lib, calls, results, spent) && i < |calls| && results[i].allowed
    ensures Verified(lib, calls[i], results[i].bindingHash)
  {
    hide OutcomeOf, Verified;
    assert (results[i], spent[i + 1]) == OutcomeOf(lib, calls[i], spent[i]);
    AllowedCallVerified(lib, calls[i], spent[i]);
  }

  lemma AllowedCallVerified(lib: Libraries, c: Call, spent: set<string>)
    requires OutcomeOf(lib, c, spent).0.allowed
    ensures Verified(lib, c, OutcomeOf(lib, c, spent).0.bindingHash)
  {
    hide AuthorityProblem, ExecutionProblem, Canonicalize, InRange, StrAt, Without;
    var env := c.env.value;
    PassedChecks(lib, env, c.actual, c.now, c.trusted);
    SignerIsTrusted(lib, env, c.trusted);
    var signer := Signer(lib, env, c.trusted).value;
    assert lib.verify(signer.0, StrAt(env, "bindingHash"), signer.1);
  }

  lemma SignerIsTrusted(lib: Libraries, env: Fields, trusted: map<string, Key>)
    requires Signer(lib, env, trusted).Some?
    ensures StrAt(env, "keyId") in trusted
    ensures Signer(lib, env, trusted).value.0 == trusted[StrAt(env, "keyId")]
    ensures lib.keyId(trusted[StrAt(env, "keyId")]) == Some(StrAt(env, "keyId"))
  {
  }

  /**
   * Two verified calls with one binding hash, in whatever sessions,
   * carry one signed body, up to key order and rounding.
   */
  lemma BindingPinsBody(lib: Libraries, c: Call, d: Call, bindingHash: string)
    requires CollisionFree(lib) && WellFormedCall(c) && WellFormedCall(d)
    requires Verified(lib, c, bindingHash) && Verified(lib, d, bindingHash)
    ensures Equivalent(Obj(AuthorityBody(c.env.value)), Obj(AuthorityBody(d.env.value)))
  {
    hide Equivalent, WellFormed, Canonicalize, InRange;
    WithoutWellFormed(c.env.value, {"signature", "signerPublicKey", "bindingHash"});
    WithoutWellFormed(d.env.value, {"signature", "signerPublicKey", "bindingHash"});
    var x, y := Canonicalize(Obj(AuthorityBody(c.env.value))), Canonicalize(Obj(AuthorityBody(d.env.value)));
    DigestPins(lib, x, y);
    UniquelyDecodable(Obj(AuthorityBody(c.env.value)), Obj(AuthorityBody(d.env.value)));
  }

  lemma DigestPins(lib: Libraries, x: string, y: string)
    requires CollisionFree(lib)
    requires Digest(lib, x) == Digest(lib, y)
    ensures x == y
  {
    assert Digest(lib, x)[7..] == lib.sha256(x) && Digest(lib, y)[7..] == lib.sha256(y);
  }

  // ---------------------------------------------------------------- receipt histories

  /** Every receipt verifies against the hash of the one before it; the first has no predecessor. */
  ghost predicate ValidHistory(lib: Libraries, rs: seq<Fields>, now: int, trusted: map<string, Key>)
  {
    forall i {:trigger ValidReceipt(lib, rs[i], now, trusted, PriorOf(rs, i))} :: 0 <= i < |rs| ==>
      ValidReceipt(lib, rs[i], now, trusted, PriorOf(rs, i))
  }

  function PriorOf(rs: seq<Fields>, i: nat): string
    requires i < |rs|
  {
    if i == 0 then "" else StrAt(rs[i - 1], "receiptHash")
  }

  ghost predicate ValidReceipt(lib: Libraries, r: Fields, now: int, trusted: map<string, Key>, prior: string)
  {
    WellFormed(Obj(r)) && ReceiptProblem(lib, r, now, trusted, Some(prior)) == ""
  }

  lemma PassedReceipt(lib: Libraries, r: Fields, now: int, trusted: map<string, Key>, prior: string)
    requires ValidReceipt(lib, r, now, trusted, prior)
    ensures StrAt(r, "receiptHash") == Digest(lib, Canonicalize(Obj(ReceiptBody(r)))) != ""
    ensures StrAt(ReceiptBody(r), "priorReceiptHash") == prior
    ensures WellFormed(Obj(ReceiptBody(r)))
  {
    hide Signer, SignerProblem, Without, Canonicalize, InRange, Lookup, WellFormed;
    WithoutWellFormed(r, {"signature", "signerPublicKey", "receiptHash"});
  }

  /** Equivalent objects have the same string under every key. */
  lemma EquivalentStrings(f: Fields, g: Fields, key: string)
    requires WellFormed(Obj(f)) && WellFormed(Obj(g)) && Equivalent(Obj(f), Obj(g))
    ensures StrAt(f, key) == StrAt(g, key)
  {
    hide Equivalent, SameField, Matched, HasKey, Lookup, WellFormed;
    EquivalentObjects(f, g);
    ObjectKeysDistinct(f);
    ObjectKeysDistinct(g);
    if Lookup(f, key).Some? {
      var i := LookupFinds(f, key);
      var j := FindMatch(f[i], g);
      LookupMember(g, j);
      SameFieldStrings(f[i], g[j]);
    } else if Lookup(g, key).Some? {
      var j := LookupFinds(g, key);
      var i := FindKey(f, key);
    }
  }

  lemma ObjectKeysDistinct(f: Fields)
    requires WellFormed(Obj(f))
    ensures DistinctKeys(f)
  {
  }

  lemma SameFieldStrings(e: Entry<Json>, d: Entry<Json>)
    requires SameField(e, d)
    ensures e.key == d.key
    ensures e.value.Str? || d.value.Str? ==> e.value == d.value
  {
  }

  /** Receipts with one hash have one body, up to key order and rounding, whoever verified them, and when. */
  lemma HashPinsReceipt(lib: Libraries, r: Fields, now: int, trusted: map<string, Key>, p: string,
                        s: Fields, later: int, others: map<string, Key>, q: string)
    requires CollisionFree(lib)
    requires ValidReceipt(lib, r, now, trusted, p) && ValidReceipt(lib, s, later, others, q)
    requires StrAt(r, "receiptHash") == StrAt(s, "receiptHash")
    ensures Equivalent(Obj(ReceiptBody(r)), Obj(ReceiptBody(s)))
    ensures p == q
  {
    hide Equivalent, WellFormed, Canonicalize, ReceiptProblem, ReceiptBody, StrAt, ValidReceipt;
    PassedReceipt(lib, r, now, trusted, p);
    PassedReceipt(lib, s, later, others, q);
    DigestPins(lib, Canonicalize(Obj(ReceiptBody(r))), Canonicalize(Obj(ReceiptBody(s))));
    UniquelyDecodable(Obj(ReceiptBody(r)), Obj(ReceiptBody(s)));
    EquivalentStrings(ReceiptBody(r), ReceiptBody(s), "priorReceiptHash");
  }

  /** The hash of the last receipt fixes the whole history, its length and every body in it, for any two verifiers. */
  lemma {:induction false} LastHashPinsHistory(lib: Libraries, a: seq<Fields>, now: int, trusted: map<string, Key>,
                                               b: seq<Fields>, later: int, others: map<string, Key>)
    requires CollisionFree(lib)
    requires ValidHistory(lib, a, now, trusted) && ValidHistory(lib, b, later, others)
    requires a != [] && b != []
    requires StrAt(a[|a| - 1], "receiptHash") == StrAt(b[|b| - 1], "receiptHash")
    ensures |a| == |b|
    ensures forall i :: 0 <= i < |a| ==> Equivalent(Obj(ReceiptBody(a[i])), Obj(ReceiptBody(b[i])))
    decreases |a|
  {
    hide Equivalent, ValidReceipt, ValidHistory, StrAt, ReceiptBody;
    var m, n := |a| - 1, |b| - 1;
    HistoryStep(lib, a, now, trusted);
    HistoryStep(lib, b, later, others);
    HashPinsReceipt(lib, a[m], now, trusted, PriorOf(a, m), b[n], later, others, PriorOf(b, n));
    if m > 0 && n > 0 {
      LastHashPinsHistory(lib, a[..m], now, trusted, b[..n], later, others);
      forall i | 0 <= i < |a|
        ensures Equivalent(Obj(ReceiptBody(a[i])), Obj(ReceiptBody(b[i])))
      {
        if i < m {
          assert a[..m][i] == a[i] && b[..n][i] == b[i];
        }
      }
    }
  }

  lemma HistoryStep(lib: Libraries, a: seq<Fields>, now: int, trusted: map<string, Key>)
    requires ValidHistory(lib, a, now, trusted) && a != []
    ensures var m := |a| - 1;
      && ValidReceipt(lib, a[m], now, trusted, PriorOf(a, m))
      && ValidHistory(lib, a[..m], now, trusted)
      && (PriorOf(a, m) == "" <==> m == 0)
  {
    hide ValidReceipt, StrAt;
    var m := |a| - 1;
    assert forall i :: 0 <= i < m ==> PriorOf(a[..m], i) == PriorOf(a, i);
    if m > 0 {
      assert ValidReceipt(lib, a[m - 1], now, trusted, PriorOf(a, m - 1));
      PassedReceipt(lib, a[m - 1], now, trusted, PriorOf(a, m - 1));
    }
  }
}
