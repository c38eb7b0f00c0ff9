/** Chains of trust transmission: the accumulating verifier against a declarative notion of soundness. */
module IsnadChain {
  import opened Basics
  import opened Sums

  /** Dates are None when they do not parse; the amount is None when it is missing. */
  datatype Link = Link(
    issuer: string, subject: string, expiresAt: Option<int>, scope: seq<string>, transferable: bool,
    proofRefs: seq<string>, amount: Option<real>)

  /** Empty strings stand for a missing root or action. */
  datatype Input = Input(
    links: seq<Link>, rootAuthority: string, requestedAction: string, minLinkTrust: real,
    trustedAuthorities: Option<seq<string>>, attenuation: string, maxLength: Option<int>, allowSelf: bool,
    enforceMonotonic: bool, currentTime: Option<int>)

  datatype Failure = Failure(code: string, link: Option<nat>)

  datatype Weakest = Weakest(index: nat, issuer: string, subject: string, amount: real)

  datatype Verdict = Verdict(
    valid: bool, failures: seq<Failure>, continuous: bool, terminalSubject: Option<string>, effectiveTrust: real,
    weakestLink: Option<Weakest>)

  predicate ValidAmount(l: Link)
  {
    l.amount.Some? && 0.0 <= l.amount.value <= 1.0
  }

  // ---------------------------------------------------------------- attenuation

  /** The well-formed amounts, in order. */
  function Amounts(links: seq<Link>): seq<real>
  {
    if links == [] then []
    else
      var front, l := Amounts(links[..|links| - 1]), links[|links| - 1];
      if ValidAmount(l) then front + [l.amount.value] else front
  }

  function Product(xs: seq<real>): real
  {
    if xs == [] then 1.0 else Times(Product(xs[..|xs| - 1]), xs[|xs| - 1])
  }

  function Least(xs: seq<real>): real
  {
    if xs == [] then 1.0
    else
      var front, x := Least(xs[..|xs| - 1]), xs[|xs| - 1];
      if x < front then x else front
  }

  function TerminalAmount(links: seq<Link>): real
    requires links != []
  {
    var l := links[|links| - 1];
    if l.amount.Some? then l.amount.value else 0.0
  }

  function EffectiveTrust(attenuation: string, links: seq<Link>): real
  {
    if links == [] then 0.0
    else if attenuation == "min" then Clamp01(Least(Amounts(links)))
    else if attenuation == "none" then Clamp01(TerminalAmount(links))
    else Clamp01(Product(Amounts(links)))
  }

  // ---------------------------------------------------------------- soundness

  function When(b: bool, code: string, link: Option<nat>): seq<Failure>
  {
    if b then [Failure(code, link)] else []
  }

  predicate Expired(l: Link, now: Option<int>)
  {
    l.expiresAt.Some? && now.Some? && l.expiresAt.value < now.value
  }

  function ChainFailures(i: Input): seq<Failure>
  {
    When(i.links == [], "ISNAD_BROKEN_LINK", None)
    + When(i.maxLength.Some? && |i.links| > i.maxLength.value, "ISNAD_TOO_LONG", None)
    + When(i.links != [] && i.rootAuthority != "" && i.links[0].issuer != i.rootAuthority, "ISNAD_ROOT_MISMATCH", None)
  }

  function LastOf(xs: seq<real>): Option<real>
  {
    if xs == [] then None else Some(xs[|xs| - 1])
  }

  function TransmissionFailures(i: Input, k: nat): seq<Failure>
    requires k < |i.links|
  {
    var l, at := i.links[k], Some(k);
    When(l.issuer == "" || l.subject == "", "INVALID_INPUT", at)
    + When(l.issuer == l.subject && !i.allowSelf, "ISNAD_BROKEN_LINK", at)
    + When(k > 0 && l.issuer != i.links[k - 1].subject, "ISNAD_BROKEN_LINK", at)
    + When(Expired(l, i.currentTime), "ISNAD_LINK_EXPIRED", at)
  }

  function AuthorityFailures(i: Input, k: nat): seq<Failure>
    requires k < |i.links|
  {
    var l, at := i.links[k], Some(k);
    When(i.requestedAction != "" && i.requestedAction !in l.scope, "ISNAD_SCOPE_VIOLATION", at)
    + When(k < |i.links| - 1 && !l.transferable, "ISNAD_SCOPE_VIOLATION", at)
    + When(i.trustedAuthorities.Some? && l.issuer !in i.trustedAuthorities.value, "ISNAD_UNTRUSTED_NARRATOR", at)
    + When("" in l.proofRefs, "INVALID_INPUT", at)
  }

  function AmountFailures(i: Input, k: nat, before: Option<real>): seq<Failure>
    requires k < |i.links|
  {
    var l, at := i.links[k], Some(k);
    if !ValidAmount(l) then [Failure("TRANSFER_INVALID", at)]
    else
      When(l.amount.value < i.minLinkTrust, "ISNAD_WEAK_LINK", at)
      + When(i.enforceMonotonic && before.Some? && l.amount.value > before.value, "ISNAD_TRUST_AMPLIFIED", at)
  }

  /** What is wrong with link `k`, given the last well-formed amount before it. */
  function LinkFailures(i: Input, k: nat, before: Option<real>): seq<Failure>
    requires k < |i.links|
  {
    TransmissionFailures(i, k) + AuthorityFailures(i, k) + AmountFailures(i, k, before)
  }

  function FailuresUpto(i: Input, n: nat): seq<Failure>
    requires n <= |i.links|
  {
    if n == 0 then ChainFailures(i)
    else FailuresUpto(i, n - 1) + LinkFailures(i, n - 1, LastOf(Amounts(i.links[..n - 1])))
  }

  ghost predicate LinkSound(i: Input, k: nat)
    requires k < |i.links|
  {
    var l := i.links[k];
    && l.issuer != "" && l.subject != ""
    && (l.issuer != l.subject || i.allowSelf)
    && !Expired(l, i.currentTime)
    && (i.requestedAction == "" || i.requestedAction in l.scope)
    && (i.trustedAuthorities.None? || l.issuer in i.trustedAuthorities.value)
    && "" !in l.proofRefs
    && ValidAmount(l) && l.amount.value >= i.minLinkTrust
  }

  /** The next link continues this one. */
  ghost predicate Continues(i: Input, k: nat)
    requires k + 1 < |i.links|
  {
    && i.links[k + 1].issuer == i.links[k].subject
    && i.links[k].transferable
    && (i.enforceMonotonic && ValidAmount(i.links[k]) && ValidAmount(i.links[k + 1]) ==>
          i.links[k + 1].amount.value <= i.links[k].amount.value)
  }

  /** A rooted, unbroken chain of individually sound links. */
  ghost predicate Sound(i: Input)
  {
    && i.links != []
    && (i.maxLength.Some? ==> |i.links| <= i.maxLength.value)
    && (i.rootAuthority != "" ==> i.links[0].issuer == i.rootAuthority)
    && (forall k :: 0 <= k < |i.links| ==> LinkSound(i, k))
    && (forall k :: 0 <= k < |i.links| - 1 ==> Continues(i, k))
  }

  ghost predicate Unbroken(i: Input)
  {
    && i.links != []
    && (forall k :: 0 <= k < |i.links| ==> i.links[k].issuer != i.links[k].subject || i.allowSelf)
    && (forall k :: 0 <= k < |i.links| - 1 ==> i.links[k + 1].issuer == i.links[k].subject)
  }

  // ---------------------------------------------------------------- the weakest link

  /** The first of the smallest amounts, which is below 1. */
  ghost predicate FirstMinimum(links: seq<Link>, w: Weakest)
  {
    && w.index < |links| && ValidAmount(links[w.index])
    && w == Weakest(w.index, links[w.index].issuer, links[w.index].subject, links[w.index].amount.value)
    && w.amount < 1.0
    && (forall j :: 0 <= j < |links| && ValidAmount(links[j]) ==> w.amount <= links[j].amount.value)
    && (forall j :: 0 <= j < w.index && ValidAmount(links[j]) ==> w.amount < links[j].amount.value)
  }

  ghost predicate AllFull(links: seq<Link>)
  {
    forall j :: 0 <= j < |links| && ValidAmount(links[j]) ==> links[j].amount.value == 1.0
  }

  ghost predicate WeakestOf(links: seq<Link>, weakest: Option<Weakest>)
  {
    if weakest.None? then AllFull(links) else FirstMinimum(links, weakest.value)
  }

  // ---------------------------------------------------------------- the verifier

  function CodesOf(fs: seq<Failure>): set<string>
  {
    set f | f in fs :: f.code
  }

  /** One more link: the running product, minimum, last amount and weakest link. */
  lemma OneMoreLink(links: seq<Link>, k: nat, weakest: Option<Weakest>)
    requires k < |links|
    requires WeakestOf(links[..k], weakest)
    requires Least(Amounts(links[..k])) == if weakest.None? then 1.0 else weakest.value.amount
    ensures var l, before, after := links[k], Amounts(links[..k]), Amounts(links[..k + 1]);
      if !ValidAmount(l) then after == before && WeakestOf(links[..k + 1], weakest)
      else
        var amt := l.amount.value;
        && Product(after) == Times(Product(before), amt)
        && LastOf(after) == Some(amt)
        && Least(after) == (if amt < Least(before) then amt else Least(before))
        && WeakestOf(links[..k + 1],
             if amt < Least(before) then Some(Weakest(k, l.issuer, l.subject, amt)) else weakest)
  {
    hide Least, Product;
    var front, longer := links[..k], links[..k + 1];
    assert longer[..k] == front;
    assert forall j :: 0 <= j < k ==> longer[j] == front[j];
    if ValidAmount(links[k]) {
      PushAmount(Amounts(front), links[k].amount.value);
    }
  }

  lemma PushAmount(xs: seq<real>, x: real)
    ensures Product(xs + [x]) == Times(Product(xs), x)
    ensures Least(xs + [x]) == if x < Least(xs) then x else Least(xs)
  {
  }

  method CheckTransmission(i: Input, idx: nat) returns (r: seq<Failure>)
    requires idx < |i.links|
    ensures r == TransmissionFailures(i, idx)
  {
    var l, at := i.links[idx], Some(idx);
    r := [];
    if l.issuer == "" || l.subject == "" { r := r + [Failure("INVALID_INPUT", at)]; }
    if l.issuer == l.subject && !i.allowSelf { r := r + [Failure("ISNAD_BROKEN_LINK", at)]; }
    if idx > 0 && l.issuer != i.links[idx - 1].subject { r := r + [Failure("ISNAD_BROKEN_LINK", at)]; }
    if Expired(l, i.currentTime) { r := r + [Failure("ISNAD_LINK_EXPIRED", at)]; }
  }

  method CheckAuthority(i: Input, idx: nat) returns (r: seq<Failure>)
    requires idx < |i.links|
    ensures r == AuthorityFailures(i, idx)
  {
    var l, at := i.links[idx], Some(idx);
    r := [];
    if i.requestedAction != "" && i.requestedAction !in l.scope { r := r + [Failure("ISNAD_SCOPE_VIOLATION", at)]; }
    if idx < |i.links| - 1 && !l.transferable { r := r + [Failure("ISNAD_SCOPE_VIOLATION", at)]; }
    if i.trustedAuthorities.Some? && l.issuer !in i.trustedAuthorities.value {
      r := r + [Failure("ISNAD_UNTRUSTED_NARRATOR", at)];
    }
    if "" in l.proofRefs { r := r + [Failure("INVALID_INPUT", at)]; }
  }

  method CheckAmount(i: Input, idx: nat, prevAmt: Option<real>) returns (r: seq<Failure>)
    requires idx < |i.links|
    ensures r == AmountFailures(i, idx, prevAmt)
  {
    var l, at := i.links[idx], Some(idx);
    r := [];
    if !ValidAmount(l) {
      r := r + [Failure("TRANSFER_INVALID", at)];
    } else {
      if l.amount.value < i.minLinkTrust { r := r + [Failure("ISNAD_WEAK_LINK", at)]; }
      if i.enforceMonotonic && prevAmt.Some? && l.amount.value > prevAmt.value {
        r := r + [Failure("ISNAD_TRUST_AMPLIFIED", at)];
      }
    }
  }

  method CheckChain(i: Input) returns (r: seq<Failure>)
    ensures r == ChainFailures(i)
  {
    r := [];
    if i.links == [] { r := r + [Failure("ISNAD_BROKEN_LINK", None)]; }
    if i.maxLength.Some? && |i.links| > i.maxLength.value { r := r + [Failure("ISNAD_TOO_LONG", None)]; }
    if i.links != [] && i.rootAuthority != "" && i.links[0].issuer != i.rootAuthority {
      r := r + [Failure("ISNAD_ROOT_MISMATCH", None)];
    }
  }

  method VerifyIsnadChain(i: Input) returns (v: Verdict)
    ensures v.failures == FailuresUpto(i, |i.links|)
    ensures v.valid <==> v.failures == []
    ensures v.continuous <==> "ISNAD_BROKEN_LINK" !in CodesOf(v.failures)
    ensures v.effectiveTrust == EffectiveTrust(i.attenuation, i.links)
    ensures v.terminalSubject == if i.links == [] then None else Some(i.links[|i.links| - 1].subject)
    ensures WeakestOf(i.links, v.weakestLink)
  {
    hide TransmissionFailures, AuthorityFailures, AmountFailures, ChainFailures, CodesOf;
    hide WeakestOf, Least, Product, Amounts, ValidAmount;
    var links := i.links;
    var r := CheckChain(i);
    var eff, minAmt := 1.0, 1.0;
    var weakest: Option<Weakest>, prevAmt: Option<real> := None, None;
    NoLinks();
    for idx := 0 to |links|
      invariant r == FailuresUpto(i, idx)
      invariant eff == Product(Amounts(links[..idx])) && minAmt == Least(Amounts(links[..idx]))
      invariant prevAmt == LastOf(Amounts(links[..idx]))
      invariant WeakestOf(links[..idx], weakest) && minAmt == (if weakest.None? then 1.0 else weakest.value.amount)
    {
      var l := links[idx];
      var transmission := CheckTransmission(i, idx);
      var authority := CheckAuthority(i, idx);
      var amount := CheckAmount(i, idx, prevAmt);
      r := r + (transmission + authority + amount);
      OneMoreLink(links, idx, weakest);
      if ValidAmount(l) {
        ValidHasAmount(l);
        var amt := l.amount.value;
        prevAmt := Some(amt);
        eff := eff * amt;
        if amt < minAmt {
          minAmt := amt;
          weakest := Some(Weakest(idx, l.issuer, l.subject, amt));
        }
      }
    }
    assert links[..|links|] == links;
    var effectiveTrust :=
      if |links| == 0 then 0.0
      else if i.attenuation == "min" then Clamp01(minAmt)
      else if i.attenuation == "none" then Clamp01(TerminalAmount(links))
      else Clamp01(eff);
    var terminal := if |links| == 0 then None else Some(links[|links| - 1].subject);
    v := Verdict(|r| == 0, r, "ISNAD_BROKEN_LINK" !in CodesOf(r), terminal, effectiveTrust, weakest);
  }

  lemma NoLinks()
    ensures Amounts([]) == [] && Product([]) == 1.0 == Least([]) && WeakestOf([], None)
  {
  }

  lemma ValidHasAmount(l: Link)
    requires ValidAmount(l)
    ensures l.amount.Some?
  {
  }
}
