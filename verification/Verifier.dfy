/**
 * The Go verification boundary: signed authority objects, an in-memory nonce
 * ledger, and signed receipts. SHA-256, Ed25519, base64, key fingerprints and
 * time parsing are arbitrary functions.
 */
module Verifier {
  import opened Basics
  import opened JsonText
  import opened SortByKey
  import opened Json

  // ---------------------------------------------------------------- canonical text, Go binding

  /** The Go binding refuses numbers of magnitude 1e21 and above. */
  ghost predicate InRange(v: Json)
  {
    match v
    case Num(x) => -NUMBER_LIMIT < x < NUMBER_LIMIT
    case Arr(elems) => forall i :: 0 <= i < |elems| ==> InRange(elems[i])
    case Obj(fields) => forall i :: 0 <= i < |fields| ==> InRange(fields[i].value)
    case _ => true
  }

  /** The number occurs somewhere in the value. */
  ghost predicate HoldsNumber(v: Json, x: real)
  {
    match v
    case Num(y) => x == y
    case Arr(elems) => exists i :: 0 <= i < |elems| && HoldsNumber(elems[i], x)
    case Obj(fields) => exists i :: 0 <= i < |fields| && HoldsNumber(fields[i].value, x)
    case _ => false
  }

  /** All numbers in the value are below 1e21, in either direction. */
  ghost predicate AllSmall(v: Json)
  {
    forall x :: HoldsNumber(v, x) ==> -1000000000000000000000.0 < x < 1000000000000000000000.0
  }

  lemma {:induction false} InRangeExactlyWhen(v: Json)
    ensures InRange(v) <==> AllSmall(v)
    decreases v
  {
    match v
    case Num(x) => assert HoldsNumber(v, x);
    case Arr(elems) =>
      forall i | 0 <= i < |elems|
        ensures InRange(elems[i]) <==> AllSmall(elems[i])
        ensures forall x :: HoldsNumber(elems[i], x) ==> HoldsNumber(v, x)
      {
        InRangeExactlyWhen(elems[i]);
      }
      forall i | 0 <= i < |elems| && AllSmall(v)
        ensures AllSmall(elems[i])
      {
      }
      forall x | HoldsNumber(v, x)
        ensures exists i :: 0 <= i < |elems| && HoldsNumber(elems[i], x)
      {
      }
      assert InRange(v) <==> forall i :: 0 <= i < |elems| ==> InRange(elems[i]) by { UnfoldArray(elems); }
    case Obj(fields) =>
      forall i | 0 <= i < |fields|
        ensures InRange(fields[i].value) <==> AllSmall(fields[i].value)
        ensures forall x :: HoldsNumber(fields[i].value, x) ==> HoldsNumber(v, x)
      {
        InRangeExactlyWhen(fields[i].value);
      }
      forall i | 0 <= i < |fields| && AllSmall(v)
        ensures AllSmall(fields[i].value)
      {
      }
      forall x | HoldsNumber(v, x)
        ensures exists i :: 0 <= i < |fields| && HoldsNumber(fields[i].value, x)
      {
      }
      assert InRange(v) <==> forall i :: 0 <= i < |fields| ==> InRange(fields[i].value) by { UnfoldObject(fields); }
    case _ =>
  }

  /** The text of the JavaScript serialiser, on the values the Go one accepts. */
  ghost function GoText(v: Json): Option<string>
  {
    if InRange(v) then Some(Canonicalize(v)) else None
  }

  /** The Go serialiser produces the same text as the JavaScript one wherever it succeeds. */
  method Canonical(v: Json) returns (r: Option<string>)
    ensures r == GoText(v)
    decreases v, 1
  {
    match v
    case Null => r := Some("null");
    case Bool(b) => r := Some(if b then "true" else "false");
    case Str(s) => r := Some(Quote(s));
    case Num(x) =>
      if x >= NUMBER_LIMIT || x <= -NUMBER_LIMIT {
        r := None;
      } else {
        r := Some(PlainNumberText(Round6(x)));
      }
    case Arr(elems) => r := CanonicalArray(elems);
    case Obj(fields) => r := CanonicalObject(fields);
  }

  method CanonicalArray(elems: seq<Json>) returns (r: Option<string>)
    ensures r == GoText(Arr(elems))
    decreases elems, 2
  {
    hide InRange, Canonicalize, CanonicalizeAll;
    UnfoldArray(elems);
    var out: seq<string> := [];
    for i := 0 to |elems|
      invariant out == CanonicalizeAll(elems)[..i]
      invariant forall k :: 0 <= k < i ==> InRange(elems[k])
    {
      var p := Canonical(elems[i]);
      if p.None? {
        return None;
      }
      out := out + [p.value];
    }
    assert out == CanonicalizeAll(elems);
    r := Some("[" + Join(out) + "]");
  }

  method CanonicalObject(fields: seq<Entry<Json>>) returns (r: Option<string>)
    ensures r == GoText(Obj(fields))
    decreases fields, 2
  {
    hide InRange, Canonicalize, CanonicalizeFields, Sort, Quote;
    UnfoldObject(fields);
    var sorted := Sort(fields);
    ghost var texts := Sort(CanonicalizeFields(fields));
    SortRenamed(fields, CanonicalizeFields(fields), (v: Json) => Canonicalize(v));
    assert forall k :: 0 <= k < |sorted| ==> texts[k] == Entry(sorted[k].key, Canonicalize(sorted[k].value));
    var out: seq<string> := [];
    for i := 0 to |sorted|
      invariant out == Members(texts)[..i]
      invariant forall k :: 0 <= k < i ==> InRange(sorted[k].value)
    {
      SortMembers(fields, sorted[i]);
      var p := Canonical(sorted[i].value);
      if p.None? {
        return None;
      }
      out := out + [Quote(sorted[i].key) + ":" + p.value];
    }
    forall k | 0 <= k < |fields|
      ensures InRange(fields[k].value)
    {
      SortMembers(fields, fields[k]);
    }
    assert out == Members(texts);
    r := Some("{" + Join(out) + "}");
  }

  lemma UnfoldArray(elems: seq<Json>)
    ensures InRange(Arr(elems)) <==> forall i :: 0 <= i < |elems| ==> InRange(elems[i])
    ensures Canonicalize(Arr(elems)) == "[" + Join(CanonicalizeAll(elems)) + "]"
  {
  }

  lemma UnfoldObject(fields: seq<Entry<Json>>)
    ensures InRange(Obj(fields)) <==> forall i :: 0 <= i < |fields| ==> InRange(fields[i].value)
    ensures Canonicalize(Obj(fields)) == "{" + Join(Members(Sort(CanonicalizeFields(fields)))) + "}"
  {
  }

  // ---------------------------------------------------------------- decoded objects

  type Fields = seq<Entry<Json>>

  function Lookup(fs: Fields, key: string): (r: Option<Json>)
    ensures r.Some? <==> exists i :: 0 <= i < |fs| && fs[i].key == key
  {
    if fs == [] then None else if fs[0].key == key then Some(fs[0].value) else Lookup(fs[1..], key)
  }

  /** The string under `key`, or the empty string. */
  function StrAt(fs: Fields, key: string): string
  {
    match Lookup(fs, key)
    case Some(Str(s)) => s
    case _ => ""
  }

  /** The object under `key`, if there is one. */
  function ObjAt(fs: Fields, key: string): Option<Fields>
  {
    match Lookup(fs, key)
    case Some(Obj(o)) => Some(o)
    case _ => None
  }

  /** A field of a possibly missing object. */
  function StrOf(o: Option<Fields>, key: string): string
  {
    if o.None? then "" else StrAt(o.value, key)
  }

  function Without(fs: Fields, keys: set<string>): Fields
  {
    if fs == [] then []
    else if fs[0].key in keys then Without(fs[1..], keys)
    else [fs[0]] + Without(fs[1..], keys)
  }

  // ---------------------------------------------------------------- verification

  datatype Key = Key(bytes: string)

  /** The libraries the verifier calls. */
  datatype Libraries = Libraries(
    keyId: Key -> Option<string>,
    sha256: string -> string,
    decodeBase64: string -> Option<string>,
    verify: (Key, string, string) -> bool,
    parseTime: string -> Option<int>)

  ghost predicate CollisionFree(lib: Libraries)
  {
    forall x, y :: lib.sha256(x) == lib.sha256(y) ==> x == y
  }

  const SIGNATURE_SIZE := 64

  datatype Execution = Execution(principal: string, action: string, target: string, params: Option<Fields>)

  datatype Result = Result(allowed: bool, reason: string, signerVerified: bool, bindingHash: string)

  function Deny(reason: string): Result { Result(false, reason, false, "") }

  /** The signer named in `env`, if it is trusted, its fingerprint is its name, and the signature is well formed. */
  function Signer(lib: Libraries, env: Fields, trusted: map<string, Key>): Option<(Key, string)>
  {
    var sig, kid := ObjAt(env, "signature"), StrAt(env, "keyId");
    if kid !in trusted || lib.keyId(trusted[kid]) != Some(kid) then None
    else
      match lib.decodeBase64(StrOf(sig, "value"))
      case None => None
      case Some(bytes) =>
        if |bytes| != SIGNATURE_SIZE || StrOf(sig, "alg") != "ed25519" || StrOf(sig, "keyId") != kid then None
        else Some((trusted[kid], bytes))
  }

  /** Why `Signer` found none. */
  function SignerProblem(lib: Libraries, env: Fields, trusted: map<string, Key>): (problem: string)
    ensures problem != ""
  {
    var kid := StrAt(env, "keyId");
    if kid !in trusted then "UNTRUSTED_SIGNER"
    else if lib.keyId(trusted[kid]) != Some(kid) then "SIGNER_KEY_ID_MISMATCH"
    else "SIGNATURE_INVALID"
  }

  function AuthorityBody(env: Fields): Fields
  {
    Without(env, {"signature", "signerPublicKey", "bindingHash"})
  }

  function Digest(lib: Libraries, text: string): string { "sha256:" + lib.sha256(text) }

  /** Everything VerifyAuthority checks before it turns to the nonce ledger: a reason to deny, or "". */
  ghost function AuthorityProblem(lib: Libraries, env: Fields, actual: Execution, now: int,
                                  trusted: map<string, Key>): string
  {
    var signer, binding, body := Signer(lib, env, trusted), StrAt(env, "bindingHash"), AuthorityBody(env);
    if signer.None? then SignerProblem(lib, env, trusted)
    else if GoText(Obj(body)).None? then "NONCANONICAL_AUTHORITY"
    else if Digest(lib, GoText(Obj(body)).value) != binding then "BINDING_HASH_MISMATCH"
    else if !lib.verify(signer.value.0, binding, signer.value.1) then "SIGNATURE_INVALID"
    else if StrAt(body, "type") != "TTPExecutionAuthority" then "INVALID_AUTHORITY_TYPE"
    else if TimeProblem(lib, body, now) != "" then TimeProblem(lib, body, now)
    else ExecutionProblem(body, actual)
  }

  function TimeProblem(lib: Libraries, body: Fields, now: int): string
  {
    match (lib.parseTime(StrAt(body, "issuedAt")), lib.parseTime(StrAt(body, "expiresAt")))
    case (None, _) => "INVALID_ISSUED_TIME"
    case (_, None) => "AUTHORITY_EXPIRED_OR_NOT_YET_VALID"
    case (Some(from), Some(to)) =>
      if now < from || !(now < to) || !(to > from) then "AUTHORITY_EXPIRED_OR_NOT_YET_VALID" else ""
  }

  ghost function ExecutionProblem(body: Fields, actual: Execution): string
  {
    var material := ObjAt(body, "materialParams");
    var params := if actual.params.None? then [] else actual.params.value;
    if actual.principal != StrAt(body, "principal") || actual.action != StrAt(body, "action") ||
       actual.target != StrAt(body, "target") then "EXECUTION_IDENTITY_MISMATCH"
    else if material.None? then "MISSING_BOUND_PARAMETERS"
    else if GoText(Obj(params)).None? then "INVALID_PARAMS"
    else if GoText(Obj(material.value)) != GoText(Obj(params)) then "PARAMETER_MISMATCH"
    else if StrAt(body, "nonce") == "" then "MISSING_NONCE"
    else ""
  }

  /** The trusted key that `env` names by its own fingerprint has signed `hash`, in `env` itself, with Ed25519. */
  ghost predicate SignedBy(lib: Libraries, env: Fields, trusted: map<string, Key>, hash: string)
  {
    && NamedKey(lib, env, trusted) && Sealed(lib, env)
    && lib.verify(trusted[StrAt(env, "keyId")], hash, SignatureBytes(lib, env))
  }

  /** The key that `env` names is trusted, and its fingerprint is that name. */
  predicate NamedKey(lib: Libraries, env: Fields, trusted: map<string, Key>)
  {
    StrAt(env, "keyId") in trusted && lib.keyId(trusted[StrAt(env, "keyId")]) == Some(StrAt(env, "keyId"))
  }

  /** There is a signature of the right kind, in the same key's name, with 64 bytes. */
  predicate Sealed(lib: Libraries, env: Fields)
  {
    && ObjAt(env, "signature").Some?
    && var sig := ObjAt(env, "signature").value;
      && StrAt(sig, "alg") == "ed25519" && StrAt(sig, "keyId") == StrAt(env, "keyId")
      && lib.decodeBase64(StrAt(sig, "value")).Some?
      && |lib.decodeBase64(StrAt(sig, "value")).value| == 64
  }

  function SignatureBytes(lib: Libraries, env: Fields): string
    requires Sealed(lib, env)
  {
    lib.decodeBase64(StrAt(ObjAt(env, "signature").value, "value")).value
  }

  /** `hash` is the digest of the canonical text of the body. */
  ghost predicate HashOf(lib: Libraries, body: Fields, hash: string)
  {
    InRange(Obj(body)) && hash == "sha256:" + lib.sha256(Canonicalize(Obj(body)))
  }

  /** What an execution authority must satisfy apart from its nonce being new. */
  ghost predicate Authorizes(lib: Libraries, env: Fields, actual: Execution, now: int, trusted: map<string, Key>)
  {
    var body := Without(env, {"signature", "signerPublicKey", "bindingHash"});
    var from, to := lib.parseTime(StrAt(body, "issuedAt")), lib.parseTime(StrAt(body, "expiresAt"));
    && SignedBy(lib, env, trusted, StrAt(env, "bindingHash"))
    && HashOf(lib, body, StrAt(env, "bindingHash"))
    && StrAt(body, "type") == "TTPExecutionAuthority"
    && from.Some? && to.Some? && from.value <= now < to.value
    && actual.principal == StrAt(body, "principal") && actual.action == StrAt(body, "action")
    && actual.target == StrAt(body, "target")
    && SameParameters(ObjAt(body, "materialParams"), actual.params)
    && StrAt(body, "nonce") != ""
  }

  /** The signed parameters are present, and both have one canonical text; absent actual ones are empty. */
  ghost predicate SameParameters(signed: Option<Fields>, actual: Option<Fields>)
  {
    var params := if actual.None? then [] else actual.value;
    && signed.Some? && InRange(Obj(signed.value)) && InRange(Obj(params))
    && Canonicalize(Obj(signed.value)) == Canonicalize(Obj(params))
  }

  lemma SignedExactlyWhen(lib: Libraries, env: Fields, trusted: map<string, Key>, hash: string)
    ensures SignedBy(lib, env, trusted, hash) <==>
      var signer := Signer(lib, env, trusted); signer.Some? && lib.verify(signer.value.0, hash, signer.value.1)
    ensures Signer(lib, env, trusted).Some? <==> NamedKey(lib, env, trusted) && Sealed(lib, env)
    ensures SignerProblem(lib, env, trusted) == "UNTRUSTED_SIGNER" <==> StrAt(env, "keyId") !in trusted
    ensures SignerProblem(lib, env, trusted) == "SIGNER_KEY_ID_MISMATCH" <==>
      StrAt(env, "keyId") in trusted && !NamedKey(lib, env, trusted)
    ensures SignerProblem(lib, env, trusted) == "SIGNATURE_INVALID" <==> NamedKey(lib, env, trusted)
  {
    hide StrAt, ObjAt;
  }

  lemma ExecutesExactlyWhen(body: Fields, actual: Execution)
    ensures ExecutionProblem(body, actual) == "" <==>
      && actual.principal == StrAt(body, "principal") && actual.action == StrAt(body, "action")
      && actual.target == StrAt(body, "target")
      && SameParameters(ObjAt(body, "materialParams"), actual.params)
      && StrAt(body, "nonce") != ""
  {
    hide StrAt, ObjAt, InRange, Canonicalize;
  }

  lemma TimelyExactlyWhen(lib: Libraries, body: Fields, now: int)
    ensures TimeProblem(lib, body, now) == "" <==>
      var from, to := lib.parseTime(StrAt(body, "issuedAt")), lib.parseTime(StrAt(body, "expiresAt"));
      from.Some? && to.Some? && from.value <= now < to.value
    ensures TimeProblem(lib, body, now) == "INVALID_ISSUED_TIME" <==> lib.parseTime(StrAt(body, "issuedAt")).None?
    ensures TimeProblem(lib, body, now) in {"", "INVALID_ISSUED_TIME", "AUTHORITY_EXPIRED_OR_NOT_YET_VALID"}
  {
    hide StrAt;
  }

  /** Nothing is wrong exactly with authorities that meet every requirement. */
  lemma AuthorizesExactlyWhen(lib: Libraries, env: Fields, actual: Execution, now: int, trusted: map<string, Key>)
    ensures AuthorityProblem(lib, env, actual, now, trusted) == "" <==> Authorizes(lib, env, actual, now, trusted)
  {
    hide StrAt, SignedBy, Signer, SignerProblem, ExecutionProblem, TimeProblem, SameParameters, InRange, Canonicalize;
    var body := AuthorityBody(env);
    SignedExactlyWhen(lib, env, trusted, StrAt(env, "bindingHash"));
    ExecutesExactlyWhen(body, actual);
    TimelyExactlyWhen(lib, body, now);
  }

  /** Each way for an authority to be denied, with its exact condition: the first requirement that fails. */
  lemma DeniedExactlyWhen(lib: Libraries, env: Fields, actual: Execution, now: int, trusted: map<string, Key>)
    ensures var problem, body := AuthorityProblem(lib, env, actual, now, trusted), AuthorityBody(env);
      var from, to := lib.parseTime(StrAt(body, "issuedAt")), lib.parseTime(StrAt(body, "expiresAt"));
      var named := NamedKey(lib, env, trusted);
      var sealed := named && Sealed(lib, env);
      var canonical := sealed && InRange(Obj(body));
      var hashed := canonical && HashOf(lib, body, StrAt(env, "bindingHash"));
      var signed := hashed && SignedBy(lib, env, trusted, StrAt(env, "bindingHash"));
      var typed := signed && StrAt(body, "type") == "TTPExecutionAuthority";
      var timely := typed && from.Some? && to.Some? && from.value <= now < to.value;
      && (problem == "UNTRUSTED_SIGNER" <==> StrAt(env, "keyId") !in trusted)
      && (problem == "SIGNER_KEY_ID_MISMATCH" <==> StrAt(env, "keyId") in trusted && !named)
      && (problem == "SIGNATURE_INVALID" <==> (named && !sealed) || (hashed && !signed))
      && (problem == "NONCANONICAL_AUTHORITY" <==> sealed && !canonical)
      && (problem == "BINDING_HASH_MISMATCH" <==> canonical && !hashed)
      && (problem == "INVALID_AUTHORITY_TYPE" <==> signed && !typed)
      && (problem == "INVALID_ISSUED_TIME" <==> typed && from.None?)
      && (problem == "AUTHORITY_EXPIRED_OR_NOT_YET_VALID" <==> typed && from.Some? && !timely)
      && (timely ==> problem == ExecutionProblem(body, actual))
  {
    hide StrAt, ObjAt, Signer, SignerProblem, ExecutionProblem, InRange, Canonicalize, NamedKey, Sealed, SignedBy;
    hide TimeProblem;
    TimelyExactlyWhen(lib, AuthorityBody(env), now);
    SignedExactlyWhen(lib, env, trusted, StrAt(env, "bindingHash"));
    ProblemIsExecution(AuthorityBody(env), actual);
  }

  lemma ProblemIsExecution(body: Fields, actual: Execution)
    ensures ExecutionProblem(body, actual) in
      {"", "EXECUTION_IDENTITY_MISMATCH", "MISSING_BOUND_PARAMETERS", "INVALID_PARAMS", "PARAMETER_MISMATCH",
       "MISSING_NONCE"}
  {
    hide StrAt, ObjAt, GoText;
  }

  /** A replay is reported for nothing else. */
  lemma OtherProblems(lib: Libraries, env: Fields, body: Fields, actual: Execution, now: int, trusted: map<string, Key>)
    ensures SignerProblem(lib, env, trusted) != "REPLAYED_OR_UNAVAILABLE"
    ensures TimeProblem(lib, body, now) != "REPLAYED_OR_UNAVAILABLE"
    ensures ExecutionProblem(body, actual) != "REPLAYED_OR_UNAVAILABLE"
  {
    hide StrAt, ObjAt, GoText;
  }

  /** How the execution differs from what was signed. */
  lemma MismatchExactlyWhen(body: Fields, actual: Execution)
    ensures var problem, signed := ExecutionProblem(body, actual), ObjAt(body, "materialParams");
      var params := if actual.params.None? then [] else actual.params.value;
      var same := actual.principal == StrAt(body, "principal") && actual.action == StrAt(body, "action") &&
                  actual.target == StrAt(body, "target");
      && (problem == "EXECUTION_IDENTITY_MISMATCH" <==> !same)
      && (problem == "MISSING_BOUND_PARAMETERS" <==> same && signed.None?)
      && (problem == "INVALID_PARAMS" <==> same && signed.Some? && !InRange(Obj(params)))
      && (problem == "PARAMETER_MISMATCH" <==>
            same && signed.Some? && InRange(Obj(params)) && !SameParameters(signed, actual.params))
      && (problem == "MISSING_NONCE" <==> same && SameParameters(signed, actual.params) && StrAt(body, "nonce") == "")
  {
    hide StrAt, ObjAt, InRange, Canonicalize;
  }

  /** The outcome of a call, and the nonces spent after it. */
  ghost function Outcome(lib: Libraries, env: Option<Fields>, actual: Execution, now: int,
                         trusted: map<string, Key>, spent: set<string>): (Result, set<string>)
  {
    if env.None? then (Deny("INVALID_JSON"), spent)
    else
      var problem := AuthorityProblem(lib, env.value, actual, now, trusted);
      var nonce := StrAt(AuthorityBody(env.value), "nonce");
      if problem != "" then (Deny(problem), spent)
      else if nonce in spent then (Deny("REPLAYED_OR_UNAVAILABLE"), spent)
      else (Result(true, "EXECUTION_ALLOWED", true, StrAt(env.value, "bindingHash")), spent + {nonce})
  }

  class MemoryReplay {
    var spent: set<string>

    constructor ()
      ensures spent == {}
    {
      spent := {};
    }

    method SpendOnce(nonce: string) returns (ok: bool)
      modifies this
      ensures ok <==> nonce != "" && nonce !in old(spent)
      ensures spent == if ok then old(spent) + {nonce} else old(spent)
    {
      if nonce == "" || nonce in spent {
        return false;
      }
      spent := spent + {nonce};
      return true;
    }
  }

  /** `env` is what decoding the submitted bytes produced, if they are one JSON object. */
  method VerifyAuthority(lib: Libraries, env: Option<Fields>, actual: Execution, now: int,
                         trusted: map<string, Key>, replay: MemoryReplay?) returns (result: Result)
    modifies replay
    ensures replay == null ==> result == Deny("REPLAY_STORE_REQUIRED")
    ensures replay != null ==>
      (result, replay.spent) == Outcome(lib, env, actual, now, trusted, old(replay.spent))
    ensures result.allowed <==>
      && replay != null && env.Some? && Authorizes(lib, env.value, actual, now, trusted)
      && StrAt(AuthorityBody(env.value), "nonce") !in old(replay.spent)
    ensures replay != null && env.None? ==> result.reason == "INVALID_JSON"
    ensures result.reason == "REPLAYED_OR_UNAVAILABLE" <==>
      && replay != null && env.Some? && Authorizes(lib, env.value, actual, now, trusted)
      && StrAt(AuthorityBody(env.value), "nonce") in old(replay.spent)
    ensures result.allowed ==>
      result.reason == "EXECUTION_ALLOWED" && result.signerVerified &&
      result.bindingHash == StrAt(env.value, "bindingHash")
    ensures !result.allowed ==> !result.signerVerified && result.bindingHash == ""
  {
    hide GoText, Authorizes, StrAt, Signer, ExecutionProblem, TimeProblem, SignerProblem;
    if replay == null {
      return Deny("REPLAY_STORE_REQUIRED");
    }
    if env.None? {
      return Deny("INVALID_JSON");
    }
    AuthorizesExactlyWhen(lib, env.value, actual, now, trusted);
    OtherProblems(lib, env.value, AuthorityBody(env.value), actual, now, trusted);
    var signer := Signer(lib, env.value, trusted);
    if signer.None? {
      return Deny(SignerProblem(lib, env.value, trusted));
    }
    var binding, body := StrAt(env.value, "bindingHash"), AuthorityBody(env.value);
    var text := Canonical(Obj(body));
    if text.None? {
      return Deny("NONCANONICAL_AUTHORITY");
    }
    if Digest(lib, text.value) != binding {
      return Deny("BINDING_HASH_MISMATCH");
    }
    if !lib.verify(signer.value.0, binding, signer.value.1) {
      return Deny("SIGNATURE_INVALID");
    }
    if StrAt(body, "type") != "TTPExecutionAuthority" {
      return Deny("INVALID_AUTHORITY_TYPE");
    }
    var late := TimeProblem(lib, body, now);
    if late != "" {
      return Deny(late);
    }
    var mismatch := CheckExecution(body, actual);
    if mismatch != "" {
      return Deny(mismatch);
    }
    ExecutesExactlyWhen(body, actual);
    var first := replay.SpendOnce(StrAt(body, "nonce"));
    if !first {
      return Deny("REPLAYED_OR_UNAVAILABLE");
    }
    return Result(true, "EXECUTION_ALLOWED", true, binding);
  }

  method CheckExecution(body: Fields, actual: Execution) returns (problem: string)
    ensures problem == ExecutionProblem(body, actual)
  {
    hide GoText;
    if actual.principal != StrAt(body, "principal") || actual.action != StrAt(body, "action") ||
       actual.target != StrAt(body, "target") {
      return "EXECUTION_IDENTITY_MISMATCH";
    }
    var material := ObjAt(body, "materialParams");
    if material.None? {
      return "MISSING_BOUND_PARAMETERS";
    }
    var a := Canonical(Obj(if actual.params.None? then [] else actual.params.value));
    if a.None? {
      return "INVALID_PARAMS";
    }
    var b := Canonical(Obj(material.value));
    if b != a {
      return "PARAMETER_MISMATCH";
    }
    return if StrAt(body, "nonce") == "" then "MISSING_NONCE" else "";
  }

  // ---------------------------------------------------------------- receipts

  function ReceiptBody(r: Fields): Fields
  {
    Without(r, {"signature", "signerPublicKey", "receiptHash"})
  }

  /** Does the receipt name the expected predecessor? An absent or null link stands for the empty one. */
  function PriorProblem(body: Fields, expectedPrior: Option<string>): string
  {
    if expectedPrior.Some? && StrAt(body, "priorReceiptHash") != expectedPrior.value &&
       (expectedPrior.value != "" || Lookup(body, "priorReceiptHash") !in {None, Some(Null)})
    then "RECEIPT_CHAIN_BROKEN"
    else if ObjAt(body, "executed").Some? && StrOf(ObjAt(body, "verifier"), "decision") != "EXECUTION_ALLOWED"
    then "EXECUTED_WITHOUT_AUTHORITY"
    else ""
  }

  /** A reason to reject the receipt, or "". */
  ghost function ReceiptProblem(lib: Libraries, r: Fields, now: int, trusted: map<string, Key>,
                                expectedPrior: Option<string>): string
  {
    var signer, digest, body := Signer(lib, r, trusted), StrAt(r, "receiptHash"), ReceiptBody(r);
    if signer.None? then SignerProblem(lib, r, trusted)
    else if GoText(Obj(body)).None? then "NONCANONICAL_RECEIPT"
    else if Digest(lib, GoText(Obj(body)).value) != digest then "RECEIPT_HASH_MISMATCH"
    else if !lib.verify(signer.value.0, digest, signer.value.1) then "SIGNATURE_INVALID"
    else if lib.parseTime(StrAt(body, "issuedAt")).None? || lib.parseTime(StrAt(body, "issuedAt")).value > now
    then "FUTURE_OR_INVALID_RECEIPT"
    else PriorProblem(body, expectedPrior)
  }

  /** What a receipt must satisfy. */
  ghost predicate Genuine(lib: Libraries, r: Fields, now: int, trusted: map<string, Key>, expectedPrior: Option<string>)
  {
    var body := Without(r, {"signature", "signerPublicKey", "receiptHash"});
    var issued := lib.parseTime(StrAt(body, "issuedAt"));
    && SignedBy(lib, r, trusted, StrAt(r, "receiptHash"))
    && HashOf(lib, body, StrAt(r, "receiptHash"))
    && issued.Some? && issued.value <= now
    && (expectedPrior.Some? ==> StrAt(body, "priorReceiptHash") == expectedPrior.value)
    && (ObjAt(body, "executed").Some? ==> WasAllowed(body))
  }

  /** The receipt records that a verifier had allowed the execution. */
  predicate WasAllowed(body: Fields)
  {
    ObjAt(body, "verifier").Some? && StrAt(ObjAt(body, "verifier").value, "decision") == "EXECUTION_ALLOWED"
  }

  lemma LinkedExactlyWhen(body: Fields, expectedPrior: Option<string>)
    ensures PriorProblem(body, expectedPrior) == "" <==>
      && (expectedPrior.Some? ==> StrAt(body, "priorReceiptHash") == expectedPrior.value)
      && (ObjAt(body, "executed").Some? ==> WasAllowed(body))
    ensures PriorProblem(body, expectedPrior) == "RECEIPT_CHAIN_BROKEN" <==>
      expectedPrior.Some? && StrAt(body, "priorReceiptHash") != expectedPrior.value
    ensures PriorProblem(body, expectedPrior) in {"", "RECEIPT_CHAIN_BROKEN", "EXECUTED_WITHOUT_AUTHORITY"}
  {
    hide Lookup;
  }

  /** Each way for a receipt to be rejected, with its exact condition: the first requirement that fails. */
  lemma RejectedExactlyWhen(lib: Libraries, r: Fields, now: int, trusted: map<string, Key>,
                            expectedPrior: Option<string>)
    ensures var problem, body := ReceiptProblem(lib, r, now, trusted, expectedPrior), ReceiptBody(r);
      var issued := lib.parseTime(StrAt(body, "issuedAt"));
      var named := NamedKey(lib, r, trusted);
      var sealed := named && Sealed(lib, r);
      var canonical := sealed && InRange(Obj(body));
      var hashed := canonical && HashOf(lib, body, StrAt(r, "receiptHash"));
      var signed := hashed && SignedBy(lib, r, trusted, StrAt(r, "receiptHash"));
      var timely := signed && issued.Some? && issued.value <= now;
      var linked := timely && (expectedPrior.Some? ==> StrAt(body, "priorReceiptHash") == expectedPrior.value);
      && (problem == "UNTRUSTED_SIGNER" <==> StrAt(r, "keyId") !in trusted)
      && (problem == "SIGNER_KEY_ID_MISMATCH" <==> StrAt(r, "keyId") in trusted && !named)
      && (problem == "SIGNATURE_INVALID" <==> (named && !sealed) || (hashed && !signed))
      && (problem == "NONCANONICAL_RECEIPT" <==> sealed && !canonical)
      && (problem == "RECEIPT_HASH_MISMATCH" <==> canonical && !hashed)
      && (problem == "FUTURE_OR_INVALID_RECEIPT" <==> signed && !timely)
      && (problem == "RECEIPT_CHAIN_BROKEN" <==> timely && !linked)
      && (problem == "EXECUTED_WITHOUT_AUTHORITY" <==> linked && ObjAt(body, "executed").Some? && !WasAllowed(body))
  {
    hide StrAt, ObjAt, Signer, SignerProblem, PriorProblem, InRange, Canonicalize, NamedKey, Sealed, SignedBy;
    hide WasAllowed;
    SignedExactlyWhen(lib, r, trusted, StrAt(r, "receiptHash"));
    LinkedExactlyWhen(ReceiptBody(r), expectedPrior);
  }

  /** Nothing is wrong exactly with receipts that meet every requirement. */
  lemma GenuineExactlyWhen(lib: Libraries, r: Fields, now: int, trusted: map<string, Key>,
                           expectedPrior: Option<string>)
    ensures ReceiptProblem(lib, r, now, trusted, expectedPrior) == "" <==>
      Genuine(lib, r, now, trusted, expectedPrior)
  {
    hide StrAt, ObjAt, SignedBy, Signer, SignerProblem, PriorProblem, InRange, Canonicalize;
    SignedExactlyWhen(lib, r, trusted, StrAt(r, "receiptHash"));
    LinkedExactlyWhen(ReceiptBody(r), expectedPrior);
  }

  method VerifyReceipt(lib: Libraries, receipt: Option<Fields>, now: int, trusted: map<string, Key>,
                       expectedPrior: Option<string>) returns (result: Result)
    ensures receipt.None? ==> result == Deny("INVALID_JSON")
    ensures receipt.Some? ==>
      var problem := ReceiptProblem(lib, receipt.value, now, trusted, expectedPrior);
      result == if problem != "" then Deny(problem)
                else Result(true, "RECEIPT_VERIFIED", true, StrAt(receipt.value, "receiptHash"))
    ensures result.allowed <==> receipt.Some? && Genuine(lib, receipt.value, now, trusted, expectedPrior)
  {
    hide GoText, Genuine, StrAt, Signer, SignerProblem, PriorProblem;
    if receipt.None? {
      return Deny("INVALID_JSON");
    }
    var r := receipt.value;
    GenuineExactlyWhen(lib, r, now, trusted, expectedPrior);
    var signer := Signer(lib, r, trusted);
    if signer.None? {
      return Deny(SignerProblem(lib, r, trusted));
    }
    var digest, body := StrAt(r, "receiptHash"), ReceiptBody(r);
    var text := Canonical(Obj(body));
    if text.None? {
      return Deny("NONCANONICAL_RECEIPT");
    }
    if Digest(lib, text.value) != digest {
      return Deny("RECEIPT_HASH_MISMATCH");
    }
    if !lib.verify(signer.value.0, digest, signer.value.1) {
      return Deny("SIGNATURE_INVALID");
    }
    var issued := lib.parseTime(StrAt(body, "issuedAt"));
    if issued.None? || issued.value > now {
      return Deny("FUTURE_OR_INVALID_RECEIPT");
    }
    var broken := PriorProblem(body, expectedPrior);
    if broken != "" {
      return Deny(broken);
    }
    return Result(true, "RECEIPT_VERIFIED", true, digest);
  }
}
