/** The verifier's verdict is soundness, and trust does not grow along a chain. */
module IsnadLaws {
  import opened Basics
  import opened Sums
  import opened IsnadChain

  // ---------------------------------------------------------------- verdicts

  ghost predicate LinkPasses(i: Input, k: nat)
    requires k < |i.links|
  {
    LinkFailures(i, k, LastOf(Amounts(i.links[..k]))) == []
  }

  lemma {:induction false} NoFailures(i: Input, n: nat)
    requires n <= |i.links|
    ensures FailuresUpto(i, n) == [] <==> ChainFailures(i) == [] && forall k :: 0 <= k < n ==> LinkPasses(i, k)
  {
    hide LinkFailures, ChainFailures, Amounts, LastOf;
    if n > 0 {
      NoFailures(i, n - 1);
      var a, b := FailuresUpto(i, n - 1), LinkFailures(i, n - 1, LastOf(Amounts(i.links[..n - 1])));
      assert |a + b| == |a| + |b|;
      assert b == [] <==> LinkPasses(i, n - 1);
    }
  }

  lemma PassesWhenSound(i: Input, k: nat)
    requires k < |i.links| && (k > 0 ==> ValidAmount(i.links[k - 1]))
    ensures LinkPasses(i, k) <==>
      && LinkSound(i, k) && (k < |i.links| - 1 ==> i.links[k].transferable)
      && (k > 0 ==> i.links[k].issuer == i.links[k - 1].subject)
      && (k > 0 && i.enforceMonotonic ==> i.links[k].amount.value <= i.links[k - 1].amount.value)
  {
  }

  /** No failure is reported exactly for rooted, unbroken chains of sound links. */
  lemma ValidExactlyWhenSound(i: Input)
    ensures FailuresUpto(i, |i.links|) == [] <==> Sound(i)
  {
    hide LinkPasses, LinkSound, Continues;
    NoFailures(i, |i.links|);
    NoChainFailure(i);
    hide FailuresUpto, ChainFailures;
    if forall k :: 0 <= k < |i.links| ==> LinkPasses(i, k) {
      AllPassAllSound(i, |i.links|);
    }
    if Sound(i) {
      forall k | 0 <= k < |i.links|
        ensures LinkPasses(i, k)
      {
        SoundPasses(i, k);
      }
    }
  }

  lemma SoundPasses(i: Input, k: nat)
    requires Sound(i) && k < |i.links|
    ensures LinkPasses(i, k)
  {
    hide LinkPasses, Expired;
    SoundHasAmounts(i, k);
    PassesWhenSound(i, k);
    assert k > 0 ==> Continues(i, k - 1);
    assert k < |i.links| - 1 ==> Continues(i, k);
  }

  lemma SoundHasAmounts(i: Input, k: nat)
    requires Sound(i) && k < |i.links|
    ensures ValidAmount(i.links[k]) && (k > 0 ==> ValidAmount(i.links[k - 1]))
  {
    assert LinkSound(i, k) && (k > 0 ==> LinkSound(i, k - 1));
  }

  lemma NoChainFailure(i: Input)
    ensures ChainFailures(i) == [] <==>
      && i.links != [] && (i.maxLength.Some? ==> |i.links| <= i.maxLength.value)
      && (i.rootAuthority != "" ==> i.links[0].issuer == i.rootAuthority)
  {
  }

  lemma {:induction false} AllPassAllSound(i: Input, n: nat)
    requires n <= |i.links| && forall k :: 0 <= k < n ==> LinkPasses(i, k)
    ensures forall k :: 0 <= k < n ==> LinkSound(i, k)
    ensures forall k :: 0 <= k < n - 1 ==> Continues(i, k)
  {
    hide LinkPasses, Expired;
    if n > 0 {
      AllPassAllSound(i, n - 1);
      assert n > 1 ==> LinkSound(i, n - 2);
      PassesWhenSound(i, n - 1);
      if n > 1 {
        assert LinkPasses(i, n - 2);
        if n > 2 {
          assert LinkSound(i, n - 3);
        }
        PassesWhenSound(i, n - 2);
        assert Continues(i, n - 2);
      }
    }
  }

  ghost predicate Broken(fs: seq<Failure>)
  {
    exists f :: f in fs && f.code == "ISNAD_BROKEN_LINK"
  }

  lemma BrokenConcat(a: seq<Failure>, b: seq<Failure>)
    ensures Broken(a + b) <==> Broken(a) || Broken(b)
  {
  }

  lemma LinkBreaks(i: Input, k: nat, before: Option<real>)
    requires k < |i.links|
    ensures Broken(LinkFailures(i, k, before)) <==>
      || (i.links[k].issuer == i.links[k].subject && !i.allowSelf)
      || (k > 0 && i.links[k].issuer != i.links[k - 1].subject)
  {
    hide Broken, TransmissionFailures, AuthorityFailures, AmountFailures;
    BrokenConcat(TransmissionFailures(i, k) + AuthorityFailures(i, k), AmountFailures(i, k, before));
    BrokenConcat(TransmissionFailures(i, k), AuthorityFailures(i, k));
    TransmissionBreaks(i, k);
    OthersDoNotBreak(i, k, before);
  }

  lemma OthersDoNotBreak(i: Input, k: nat, before: Option<real>)
    requires k < |i.links|
    ensures !Broken(AuthorityFailures(i, k)) && !Broken(AmountFailures(i, k, before))
  {
  }

  lemma TransmissionBreaks(i: Input, k: nat)
    requires k < |i.links|
    ensures Broken(TransmissionFailures(i, k)) <==>
      || (i.links[k].issuer == i.links[k].subject && !i.allowSelf)
      || (k > 0 && i.links[k].issuer != i.links[k - 1].subject)
  {
    hide Broken, Expired;
    var l, at := i.links[k], Some(k);
    var a := When(l.issuer == "" || l.subject == "", "INVALID_INPUT", at);
    var b := When(l.issuer == l.subject && !i.allowSelf, "ISNAD_BROKEN_LINK", at);
    var c := When(k > 0 && l.issuer != i.links[k - 1].subject, "ISNAD_BROKEN_LINK", at);
    var d := When(Expired(l, i.currentTime), "ISNAD_LINK_EXPIRED", at);
    BrokenConcat(a + b + c, d);
    BrokenConcat(a + b, c);
    BrokenConcat(a, b);
    BrokenOne(l.issuer == "" || l.subject == "", "INVALID_INPUT", at);
    BrokenOne(l.issuer == l.subject && !i.allowSelf, "ISNAD_BROKEN_LINK", at);
    BrokenOne(k > 0 && l.issuer != i.links[k - 1].subject, "ISNAD_BROKEN_LINK", at);
    BrokenOne(Expired(l, i.currentTime), "ISNAD_LINK_EXPIRED", at);
  }

  lemma BrokenOne(b: bool, code: string, at: Option<nat>)
    ensures Broken(When(b, code, at)) <==> b && code == "ISNAD_BROKEN_LINK"
  {
  }

  lemma {:induction false} BrokenUpto(i: Input, n: nat)
    requires n <= |i.links|
    ensures Broken(FailuresUpto(i, n)) <==>
      || i.links == []
      || (exists k :: 0 <= k < n && i.links[k].issuer == i.links[k].subject && !i.allowSelf)
      || (exists k :: 0 < k < n && i.links[k].issuer != i.links[k - 1].subject)
  {
    hide LinkFailures, Broken;
    if n == 0 {
      ChainBreaks(i);
    } else {
      BrokenUpto(i, n - 1);
      LinkBreaks(i, n - 1, LastOf(Amounts(i.links[..n - 1])));
      BrokenConcat(FailuresUpto(i, n - 1), LinkFailures(i, n - 1, LastOf(Amounts(i.links[..n - 1]))));
    }
  }

  lemma ChainBreaks(i: Input)
    ensures Broken(ChainFailures(i)) <==> i.links == []
  {
  }

  /** `continuous` means: not empty, every issuer is the previous subject, and no self-transmission. */
  lemma ContinuousExactlyWhenUnbroken(i: Input)
    ensures "ISNAD_BROKEN_LINK" !in CodesOf(FailuresUpto(i, |i.links|)) <==> Unbroken(i)
  {
    hide FailuresUpto;
    BrokenUpto(i, |i.links|);
    assert "ISNAD_BROKEN_LINK" in CodesOf(FailuresUpto(i, |i.links|)) <==> Broken(FailuresUpto(i, |i.links|));
    assert Unbroken(i) <==>
      !(i.links == []
        || (exists k :: 0 <= k < |i.links| && i.links[k].issuer == i.links[k].subject && !i.allowSelf)
        || (exists k :: 0 < k < |i.links| && i.links[k].issuer != i.links[k - 1].subject)) by {
      if Unbroken(i) {
        forall k | 0 < k < |i.links|
          ensures i.links[k].issuer == i.links[k - 1].subject
        {
          assert i.links[(k - 1) + 1].issuer == i.links[k - 1].subject;
        }
      }
    }
  }

  // ---------------------------------------------------------------- failures

  /** Link `j` has the last proper amount before link `k`, and `x` is that amount. */
  ghost predicate LastProper(links: seq<Link>, k: nat, j: nat, x: real)
  {
    && j < k <= |links| && links[j].amount == Some(x) && 0.0 <= x <= 1.0
    && (forall h :: j < h < k ==> links[h].amount.None? || links[h].amount.value < 0.0 || links[h].amount.value > 1.0)
  }

  ghost predicate RisesAt(links: seq<Link>, k: nat)
    requires k < |links| && links[k].amount.Some?
  {
    exists j, x :: LastProper(links, k, j, x) && links[k].amount.value > x
  }

  /** What is wrong with the chain as a whole. */
  ghost predicate ChainFault(i: Input, code: string)
  {
    || (code == "ISNAD_BROKEN_LINK" && i.links == [])
    || (code == "ISNAD_TOO_LONG" && i.maxLength.Some? && |i.links| > i.maxLength.value)
    || (code == "ISNAD_ROOT_MISMATCH" && i.links != [] && i.rootAuthority != "" && i.links[0].issuer != i.rootAuthority)
  }

  ghost predicate TransmissionFault(i: Input, k: nat, code: string)
    requires k < |i.links|
  {
    var l := i.links[k];
    || (code == "INVALID_INPUT" && (l.issuer == "" || l.subject == ""))
    || (code == "ISNAD_BROKEN_LINK" && l.issuer == l.subject && !i.allowSelf)
    || (code == "ISNAD_BROKEN_LINK" && k > 0 && i.links[k - 1].subject != l.issuer)
    || (code == "ISNAD_LINK_EXPIRED" && l.expiresAt.Some? && i.currentTime.Some? &&
        l.expiresAt.value < i.currentTime.value)
  }

  ghost predicate AuthorityFault(i: Input, k: nat, code: string)
    requires k < |i.links|
  {
    var l := i.links[k];
    || (code == "ISNAD_SCOPE_VIOLATION" && i.requestedAction != "" && i.requestedAction !in l.scope)
    || (code == "ISNAD_SCOPE_VIOLATION" && k + 1 < |i.links| && !l.transferable)
    || (code == "ISNAD_UNTRUSTED_NARRATOR" && i.trustedAuthorities.Some? && l.issuer !in i.trustedAuthorities.value)
    || (code == "INVALID_INPUT" && "" in l.proofRefs)
  }

  ghost predicate AmountFault(i: Input, k: nat, code: string)
    requires k < |i.links|
  {
    var amount := i.links[k].amount;
    if amount.None? || amount.value < 0.0 || amount.value > 1.0 then code == "TRANSFER_INVALID"
    else
      || (code == "ISNAD_WEAK_LINK" && amount.value < i.minLinkTrust)
      || (code == "ISNAD_TRUST_AMPLIFIED" && i.enforceMonotonic && RisesAt(i.links, k))
  }

  ghost predicate LinkFault(i: Input, k: nat, code: string)
    requires k < |i.links|
  {
    TransmissionFault(i, k, code) || AuthorityFault(i, k, code) || AmountFault(i, k, code)
  }

  lemma {:induction false} LastAmountBefore(links: seq<Link>, k: nat)
    requires k <= |links|
    ensures forall j, x :: LastProper(links, k, j, x) ==> LastOf(Amounts(links[..k])) == Some(x)
    ensures var last := LastOf(Amounts(links[..k])); last.Some? ==> exists j :: LastProper(links, k, j, last.value)
  {
    if k > 0 {
      LastAmountBefore(links, k - 1);
      var front, l := links[..k - 1], links[k - 1];
      assert links[..k][..k - 1] == front;
      var last := LastOf(Amounts(links[..k]));
      forall j: nat, x | LastProper(links, k, j, x)
        ensures last == Some(x)
      {
        if j < k - 1 {
          assert LastProper(links, k - 1, j, x);
        }
      }
      if ValidAmount(l) {
        assert LastProper(links, k, k - 1, l.amount.value);
      } else if last.Some? {
        var j :| LastProper(links, k - 1, j, last.value);
        assert LastProper(links, k, j, last.value);
      }
    }
  }

  lemma RisesExactlyWhen(links: seq<Link>, k: nat)
    requires k < |links| && links[k].amount.Some?
    ensures var last := LastOf(Amounts(links[..k]));
      RisesAt(links, k) <==> last.Some? && links[k].amount.value > last.value
  {
    hide LastProper, LastOf, Amounts;
    LastAmountBefore(links, k);
    var last := LastOf(Amounts(links[..k]));
    if RisesAt(links, k) {
      var j, x :| LastProper(links, k, j, x) && links[k].amount.value > x;
      assert last == Some(x);
    }
  }

  lemma TransmissionReported(i: Input, k: nat, f: Failure)
    requires k < |i.links|
    ensures f in TransmissionFailures(i, k) <==> f.link == Some(k) && TransmissionFault(i, k, f.code)
  {
  }

  lemma AuthorityReported(i: Input, k: nat, f: Failure)
    requires k < |i.links|
    ensures f in AuthorityFailures(i, k) <==> f.link == Some(k) && AuthorityFault(i, k, f.code)
  {
  }

  lemma AmountReported(i: Input, k: nat, f: Failure)
    requires k < |i.links|
    ensures f in AmountFailures(i, k, LastOf(Amounts(i.links[..k]))) <==> f.link == Some(k) && AmountFault(i, k, f.code)
  {
    hide RisesAt, LastOf, Amounts;
    if i.links[k].amount.Some? {
      RisesExactlyWhen(i.links, k);
    }
  }

  lemma ChainReported(i: Input, f: Failure)
    ensures f in ChainFailures(i) <==> f.link == None && ChainFault(i, f.code)
  {
  }

  lemma {:induction false} ReportedUpto(i: Input, n: nat, f: Failure)
    requires n <= |i.links|
    ensures f in FailuresUpto(i, n) <==>
      if f.link.None? then ChainFault(i, f.code) else f.link.value < n && LinkFault(i, f.link.value, f.code)
  {
    hide ChainFailures, TransmissionFailures, AuthorityFailures, AmountFailures, Amounts, LastOf;
    hide ChainFault, TransmissionFault, AuthorityFault, AmountFault;
    if n == 0 {
      ChainReported(i, f);
    } else {
      ReportedUpto(i, n - 1, f);
      TransmissionReported(i, n - 1, f);
      AuthorityReported(i, n - 1, f);
      AmountReported(i, n - 1, f);
    }
  }

  /** Each failure is reported exactly for the fault it names, at the link that has it. */
  lemma ReportedExactlyWhen(i: Input, f: Failure)
    ensures f in FailuresUpto(i, |i.links|) <==>
      if f.link.None? then ChainFault(i, f.code) else f.link.value < |i.links| && LinkFault(i, f.link.value, f.code)
  {
    hide *;
    ReportedUpto(i, |i.links|, f);
  }

  function Place(f: Failure): int
  {
    if f.link.None? then -1 else f.link.value
  }

  ghost predicate InOrder(fs: seq<Failure>)
  {
    forall a, b :: 0 <= a < b < |fs| ==> Place(fs[a]) <= Place(fs[b])
  }

  lemma AppendInOrder(front: seq<Failure>, more: seq<Failure>, at: int)
    requires InOrder(front) && (forall f :: f in front ==> Place(f) < at) && (forall f :: f in more ==> Place(f) == at)
    ensures InOrder(front + more)
  {
    hide Place;
    forall a, b | 0 <= a < b < |front + more|
      ensures Place((front + more)[a]) <= Place((front + more)[b])
    {
      assert b < |front| ==> (front + more)[b] == front[b] && (front + more)[a] == front[a];
      assert b >= |front| ==> (front + more)[b] in more;
      assert (front + more)[a] in front || (front + more)[a] in more;
    }
  }

  lemma ChainFirst(i: Input)
    ensures InOrder(ChainFailures(i)) && forall f :: f in ChainFailures(i) ==> Place(f) == -1
  {
    hide ChainFailures, ChainFault;
    forall f
      ensures f in ChainFailures(i) ==> Place(f) == -1
    {
      ChainReported(i, f);
    }
  }

  lemma LinkReportsItself(i: Input, k: nat, f: Failure)
    requires k < |i.links|
    ensures f in LinkFailures(i, k, LastOf(Amounts(i.links[..k]))) ==> f.link == Some(k)
  {
    hide TransmissionFailures, AuthorityFailures, AmountFailures, Amounts, LastOf;
    hide TransmissionFault, AuthorityFault, AmountFault;
    TransmissionReported(i, k, f);
    AuthorityReported(i, k, f);
    AmountReported(i, k, f);
  }

  /** Failures come in the order of their links, those of the chain first. */
  lemma {:induction false} FailuresInOrder(i: Input, n: nat)
    requires n <= |i.links|
    ensures InOrder(FailuresUpto(i, n)) && forall f :: f in FailuresUpto(i, n) ==> Place(f) < n
  {
    hide InOrder, ChainFailures, LinkFailures, Amounts, LastOf;
    if n == 0 {
      ChainFirst(i);
    } else {
      FailuresInOrder(i, n - 1);
      var front, more := FailuresUpto(i, n - 1), LinkFailures(i, n - 1, LastOf(Amounts(i.links[..n - 1])));
      forall f
        ensures f in more ==> Place(f) == n - 1
      {
        LinkReportsItself(i, n - 1, f);
      }
      AppendInOrder(front, more, n - 1);
    }
  }

  // ---------------------------------------------------------------- attenuation

  ghost predicate AllFractions(xs: seq<real>)
  {
    forall j :: 0 <= j < |xs| ==> 0.0 <= xs[j] <= 1.0
  }

  lemma {:induction false} AmountsAreFractions(links: seq<Link>)
    ensures AllFractions(Amounts(links))
  {
    if links != [] {
      AmountsAreFractions(links[..|links| - 1]);
    }
  }

  /** The product is at most the minimum, which is at most every amount. */
  lemma {:induction false} ProductLeastEach(xs: seq<real>)
    requires AllFractions(xs)
    ensures 0.0 <= Product(xs) <= Least(xs) <= 1.0
    ensures forall j :: 0 <= j < |xs| ==> Least(xs) <= xs[j]
  {
    hide Times;
    if xs != [] {
      var front, x := xs[..|xs| - 1], xs[|xs| - 1];
      ProductLeastEach(front);
      Shrinks(Product(front), x);
      assert forall j :: 0 <= j < |front| ==> xs[j] == front[j];
    }
  }

  lemma Shrinks(x: real, y: real)
    requires 0.0 <= x <= 1.0 && 0.0 <= y <= 1.0
    ensures 0.0 <= Times(x, y) <= x && Times(x, y) <= y
  {
    TimesOrder(0.0, x, y);
    TimesOrder(x, 1.0, y);
    TimesOrder(y, 1.0, x);
    assert Times(x, y) == Times(y, x);
  }

  lemma {:induction false} AmountsConcat(a: seq<Link>, b: seq<Link>)
    ensures Amounts(a + b) == Amounts(a) + Amounts(b)
  {
    if b == [] {
      assert a + b == a;
    } else {
      AmountsConcat(a, b[..|b| - 1]);
      assert (a + b)[..|a + b| - 1] == a + b[..|b| - 1];
    }
  }

  lemma {:induction false} ProductConcat(xs: seq<real>, ys: seq<real>)
    ensures Product(xs + ys) == Times(Product(xs), Product(ys))
  {
    if ys == [] {
      assert xs + ys == xs;
    } else {
      hide Times;
      var front, y := ys[..|ys| - 1], ys[|ys| - 1];
      ProductConcat(xs, front);
      assert (xs + ys)[..|xs + ys| - 1] == xs + front;
      Associates(Product(xs), Product(front), y);
    }
  }

  lemma Associates(x: real, y: real, z: real)
    ensures Times(Times(x, y), z) == Times(x, Times(y, z))
  {
  }

  /** A single link conveys exactly its amount, in every mode. */
  lemma OneLinkConveysItsAmount(attenuation: string, l: Link)
    requires ValidAmount(l)
    ensures EffectiveTrust(attenuation, [l]) == l.amount.value
  {
    hide Times;
    var x := l.amount.value;
    assert [l][..0] == [];
    assert Amounts([l]) == [x];
    OneAmount(x);
    hide Amounts, Product, Least;
  }

  /** Nothing is conveyed by no link, nor, where the last amount counts, by a last link that names none. */
  lemma NothingConveysNothing(attenuation: string, links: seq<Link>)
    requires links == [] || (attenuation == "none" && links[|links| - 1].amount.None?)
    ensures EffectiveTrust(attenuation, links) == 0.0
  {
  }

  lemma OneAmount(x: real)
    requires 0.0 <= x <= 1.0
    ensures Product([x]) == x == Least([x]) && Clamp01(x) == x
  {
    hide Times;
    assert [x][..0] == [];
    TimesFromOne(x);
  }

  lemma TimesFromOne(x: real)
    ensures Times(1.0, x) == x
  {
  }

  /** Joining two chains multiplies their product trust. */
  lemma JoiningMultiplies(a: seq<Link>, b: seq<Link>)
    requires a != [] && b != []
    ensures EffectiveTrust("product", a + b) == EffectiveTrust("product", a) * EffectiveTrust("product", b)
  {
    hide Product, Amounts;
    AmountsConcat(a, b);
    ProductConcat(Amounts(a), Amounts(b));
    AmountsAreFractions(a);
    AmountsAreFractions(b);
    AmountsAreFractions(a + b);
    ProductLeastEach(Amounts(a));
    ProductLeastEach(Amounts(b));
    ProductLeastEach(Amounts(a + b));
  }

  lemma {:induction false} LeastShrinks(xs: seq<real>, ys: seq<real>)
    ensures Least(xs + ys) <= Least(xs)
  {
    if ys == [] {
      assert xs + ys == xs;
    } else {
      LeastShrinks(xs, ys[..|ys| - 1]);
      assert (xs + ys)[..|xs + ys| - 1] == xs + ys[..|ys| - 1];
    }
  }

  lemma {:induction false} LeastOfBoth(xs: seq<real>, ys: seq<real>)
    ensures Least(xs + ys) == Min(Least(xs), Least(ys))
    ensures Least(xs) <= 1.0
  {
    if ys == [] {
      assert xs + ys == xs;
      LeastAtMostOne(xs);
    } else {
      LeastOfBoth(xs, ys[..|ys| - 1]);
      assert (xs + ys)[..|xs + ys| - 1] == xs + ys[..|ys| - 1];
    }
  }

  lemma {:induction false} LeastAtMostOne(xs: seq<real>)
    ensures Least(xs) <= 1.0
  {
    if xs != [] {
      LeastAtMostOne(xs[..|xs| - 1]);
    }
  }

  /** Joining two chains takes the smaller "min" trust, and the "none" trust of the second. */
  lemma JoiningTakesLeastOrLast(a: seq<Link>, b: seq<Link>)
    requires a != [] && b != []
    ensures EffectiveTrust("min", a + b) == Min(EffectiveTrust("min", a), EffectiveTrust("min", b))
    ensures EffectiveTrust("none", a + b) == EffectiveTrust("none", b)
  {
    hide Amounts, Least, Product;
    AmountsConcat(a, b);
    LeastOfBoth(Amounts(a), Amounts(b));
    assert (a + b)[|a + b| - 1] == b[|b| - 1];
  }

  /** A longer chain conveys no more, under every attenuation but "none". */
  lemma LongerConveysNoMore(attenuation: string, a: seq<Link>, b: seq<Link>)
    requires a != [] && attenuation != "none"
    ensures EffectiveTrust(attenuation, a + b) <= EffectiveTrust(attenuation, a)
  {
    hide Product, Amounts, Least, Times;
    AmountsConcat(a, b);
    ProductConcat(Amounts(a), Amounts(b));
    LeastShrinks(Amounts(a), Amounts(b));
    AmountsAreFractions(a);
    AmountsAreFractions(b);
    ProductLeastEach(Amounts(a));
    ProductLeastEach(Amounts(b));
    Shrinks(Product(Amounts(a)), Product(Amounts(b)));
    assert a + b != [] && Amounts(a + b) == Amounts(a) + Amounts(b);
  }

  /** A weak first link, then a strong one. */
  function Amplifying(): Input
  {
    Input([Link("root", "a", None, [], true, [], Some(0.2)), Link("a", "b", None, [], true, [], Some(0.9))],
          "root", "", 0.0, None, "none", None, false, false, None)
  }

  /** "A longer chain conveys less": no continuation raises what a chain conveys. */
  ghost predicate LongerNeverConveysMore(attenuation: string)
  {
    forall a: seq<Link>, b: seq<Link> {:trigger EffectiveTrust(attenuation, a + b)} ::
      a != [] ==> EffectiveTrust(attenuation, a + b) <= EffectiveTrust(attenuation, a)
  }

  lemma LongerConveysNoMoreExactlyWhen(attenuation: string)
    ensures LongerNeverConveysMore(attenuation) <==> attenuation != "none"
  {
    if attenuation != "none" {
      hide EffectiveTrust;
      forall a: seq<Link>, b: seq<Link> | a != []
        ensures EffectiveTrust(attenuation, a + b) <= EffectiveTrust(attenuation, a)
      {
        LongerConveysNoMore(attenuation, a, b);
      }
    } else {
      var links := Amplifying().links;
      assert links[..1] + links[1..] == links;
      assert EffectiveTrust("none", links[..1] + links[1..]) == 0.9 && EffectiveTrust("none", links[..1]) == 0.2;
    }
  }

  lemma {:induction false} AmountsOfSound(i: Input, n: nat)
    requires Sound(i) && n <= |i.links|
    ensures |Amounts(i.links[..n])| == n
    ensures forall j :: 0 <= j < n ==> ValidAmount(i.links[j]) && Amounts(i.links[..n])[j] == i.links[j].amount.value
  {
    hide Sound;
    if n > 0 {
      AmountsOfSound(i, n - 1);
      SoundHasAmounts(i, n - 1);
      assert i.links[..n][..n - 1] == i.links[..n - 1];
    }
  }

  lemma {:induction false} MonotonicLeastIsLast(i: Input, n: nat)
    requires Sound(i) && i.enforceMonotonic && 0 < n <= |i.links|
    ensures ValidAmount(i.links[n - 1]) && Least(Amounts(i.links[..n])) == i.links[n - 1].amount.value
  {
    hide LinkSound;
    AmountsOfSound(i, n);
    assert i.links[..n][..n - 1] == i.links[..n - 1];
    if n > 1 {
      MonotonicLeastIsLast(i, n - 1);
      assert Continues(i, n - 2);
    } else {
      assert i.links[..0] == [];
    }
  }

  /** On a sound chain under enforced monotonicity, "none" grades like "min". */
  lemma MonotonicNoneIsMin(i: Input)
    requires Sound(i) && i.enforceMonotonic
    ensures EffectiveTrust("none", i.links) == EffectiveTrust("min", i.links)
  {
    hide Amounts, Least;
    MonotonicLeastIsLast(i, |i.links|);
    assert i.links[..|i.links|] == i.links;
  }

  /** In these modes, no sound chain conveys more than any of its links does. */
  ghost predicate NeverAmplifies(attenuation: string, enforceMonotonic: bool)
  {
    forall i: Input {:trigger Sound(i)} ::
      Sound(i) && i.attenuation == attenuation && i.enforceMonotonic == enforceMonotonic ==>
      forall k :: 0 <= k < |i.links| && ValidAmount(i.links[k]) ==>
        EffectiveTrust(attenuation, i.links) <= i.links[k].amount.value
  }

  lemma EffectiveAtMostEach(i: Input, k: nat)
    requires Sound(i) && k < |i.links| && ValidAmount(i.links[k])
    requires i.attenuation != "none" || i.enforceMonotonic
    ensures EffectiveTrust(i.attenuation, i.links) <= i.links[k].amount.value
  {
    hide Sound, Product, Least, Amounts;
    var xs := Amounts(i.links);
    assert i.links[..|i.links|] == i.links;
    AmountsOfSound(i, |i.links|);
    AmountsAreFractions(i.links);
    ProductLeastEach(xs);
    if i.attenuation == "none" {
      MonotonicNoneIsMin(i);
    }
  }

  /** Trust never amplifies, exactly when the mode is not "none" or monotonicity is enforced. */
  lemma AmplificationExcludedExactlyWhen(attenuation: string, enforceMonotonic: bool)
    ensures NeverAmplifies(attenuation, enforceMonotonic) <==> attenuation != "none" || enforceMonotonic
  {
    if attenuation != "none" || enforceMonotonic {
      hide Sound, EffectiveTrust;
      forall i: Input, k | Sound(i) && i.attenuation == attenuation && i.enforceMonotonic == enforceMonotonic
          && 0 <= k < |i.links| && ValidAmount(i.links[k])
        ensures EffectiveTrust(attenuation, i.links) <= i.links[k].amount.value
      {
        EffectiveAtMostEach(i, k);
      }
    } else {
      var i := Amplifying();
      assert Sound(i);
      assert EffectiveTrust("none", i.links) == 0.9 && ValidAmount(i.links[0]);
    }
  }

  /** In these modes, no sound chain conveys more than its beginning does. */
  ghost predicate NeverGrows(attenuation: string, enforceMonotonic: bool)
  {
    forall i: Input, n: nat {:trigger Sound(i), i.links[..n]} ::
      Sound(i) && i.attenuation == attenuation && i.enforceMonotonic == enforceMonotonic && 0 < n <= |i.links| ==>
        EffectiveTrust(attenuation, i.links) <= EffectiveTrust(attenuation, i.links[..n])
  }

  lemma BeginningConveysMore(i: Input, n: nat)
    requires Sound(i) && 0 < n <= |i.links|
    requires i.attenuation != "none" || i.enforceMonotonic
    ensures EffectiveTrust(i.attenuation, i.links) <= EffectiveTrust(i.attenuation, i.links[..n])
  {
    hide Sound, Product, Least, Amounts;
    var a, b := i.links[..n], i.links[n..];
    assert a + b == i.links && i.links[..|i.links|] == i.links;
    if i.attenuation != "none" {
      LongerConveysNoMore(i.attenuation, a, b);
    } else {
      MonotonicLeastIsLast(i, n);
      MonotonicLeastIsLast(i, |i.links|);
      AmountsConcat(a, b);
      LeastShrinks(Amounts(a), Amounts(b));
    }
  }

  /** A sound chain never conveys more than its beginning, exactly in the modes that exclude amplification. */
  lemma GrowthExcludedExactlyWhen(attenuation: string, enforceMonotonic: bool)
    ensures NeverGrows(attenuation, enforceMonotonic) <==> attenuation != "none" || enforceMonotonic
  {
    if attenuation != "none" || enforceMonotonic {
      hide Sound, EffectiveTrust;
      forall i: Input, n: nat | Sound(i) && i.attenuation == attenuation && i.enforceMonotonic == enforceMonotonic
          && 0 < n <= |i.links|
        ensures EffectiveTrust(attenuation, i.links) <= EffectiveTrust(attenuation, i.links[..n])
      {
        BeginningConveysMore(i, n);
      }
    } else {
      var i := Amplifying();
      assert Sound(i);
      assert EffectiveTrust("none", i.links) == 0.9 && EffectiveTrust("none", i.links[..1]) == 0.2;
    }
  }
}
