/** Is there exactly one independent approval of this pull request in GitHub's review history? */
module Approval {
  import opened Basics

  /** A part of an entry that should be a string. */
  datatype Part = Absent | Text(value: string) | IllTyped

  /** One entry of the review history; the names of environments are None when missing or not strings. */
  datatype HistoryEntry = HistoryEntry(state: Part, login: Part, environments: Option<seq<Option<string>>>)

  datatype Claim = Claim(commitSha: string, branch: string, invokingActor: string, reviewer: string)

  datatype Proof = Proof(verified: bool, reason: string)

  const ENVIRONMENT := "protected-execution"

  function LowerChar(c: char): char
  {
    if 'A' <= c <= 'Z' then 'a' + (c - 'A') else c
  }

  function Lower(s: string): (t: string)
    ensures |t| == |s|
  {
    seq(|s|, i requires 0 <= i < |s| => LowerChar(s[i]))
  }

  predicate Reads(p: Part, expected: string)
  {
    p.Text? && Lower(p.value) == expected
  }

  /** Looking at this entry throws: a part that is to be lower-cased is not a string. */
  predicate Throws(e: HistoryEntry)
  {
    e.state.IllTyped? || (Reads(e.state, "approved") && e.login.IllTyped?)
  }

  predicate Matches(e: HistoryEntry, expected: string)
  {
    && Reads(e.state, "approved") && Reads(e.login, expected)
    && e.environments.Some? && Some(ENVIRONMENT) in e.environments.value
  }

  function MatchCount(entries: seq<HistoryEntry>, expected: string): nat
  {
    if entries == [] then 0
    else MatchCount(entries[1..], expected) + if Matches(entries[0], expected) then 1 else 0
  }

  /** An exception while reading the history surfaces as an unavailable lookup. */
  function AssessApprovalHistory(entries: Option<seq<HistoryEntry>>, claim: Claim, author: string, sha: string,
                                 branch: string): Proof
  {
    var expected := Lower(claim.reviewer);
    if entries.None? then Proof(false, "INVALID_GITHUB_APPROVAL_HISTORY")
    else if sha != claim.commitSha || branch != claim.branch then Proof(false, "GITHUB_PR_HEAD_CHANGED")
    else if expected == "" || expected in [Lower(author), Lower(claim.invokingActor)] then Proof(false, "SELF_APPROVAL")
    else if exists k :: 0 <= k < |entries.value| && Throws(entries.value[k])
    then Proof(false, "GITHUB_APPROVAL_LOOKUP_UNAVAILABLE")
    else if MatchCount(entries.value, expected) == 1 then Proof(true, "GITHUB_APPROVAL_VERIFIED")
    else Proof(false, "INDEPENDENT_APPROVAL_NOT_VERIFIED")
  }

  // ---------------------------------------------------------------- what counts as an approval

  /** The same letter, but possibly in the other case; A to Z only. */
  predicate SameLetter(c: char, d: char)
  {
    c == d || ('A' <= c <= 'Z' && d as int == c as int + 32) || ('A' <= d <= 'Z' && c as int == d as int + 32)
  }

  predicate SameName(s: string, t: string)
  {
    |s| == |t| && forall i :: 0 <= i < |s| ==> SameLetter(s[i], t[i])
  }

  /** The entry approves, in the reviewer's name, for the protected environment. */
  ghost predicate ApprovedBy(e: HistoryEntry, reviewer: string)
  {
    && e.state.Text? && SameName(e.state.value, "approved")
    && e.login.Text? && SameName(e.login.value, reviewer)
    && e.environments.Some? && Some("protected-execution") in e.environments.value
  }

  /** Something that is to be compared is not a string. */
  ghost predicate Unreadable(e: HistoryEntry)
  {
    e.state.IllTyped? || (e.state.Text? && SameName(e.state.value, "approved") && e.login.IllTyped?)
  }

  ghost predicate OnlyApproval(entries: seq<HistoryEntry>, reviewer: string, k: int)
  {
    && 0 <= k < |entries| && ApprovedBy(entries[k], reviewer)
    && forall j :: 0 <= j < |entries| && ApprovedBy(entries[j], reviewer) ==> j == k
  }

  /** Someone who is neither the author nor the invoker approved, once, for the protected environment. */
  ghost predicate IndependentlyApproved(entries: seq<HistoryEntry>, reviewer: string, author: string, invoker: string)
  {
    && reviewer != "" && !SameName(reviewer, author) && !SameName(reviewer, invoker)
    && exists k :: OnlyApproval(entries, reviewer, k)
  }

  lemma LowerSameLetter(c: char, d: char)
    ensures LowerChar(c) == LowerChar(d) <==> SameLetter(c, d)
  {
  }

  lemma LowerSame(s: string, t: string)
    ensures Lower(s) == Lower(t) <==> SameName(s, t)
  {
    forall i | 0 <= i < |s| && |s| == |t|
      ensures Lower(s)[i] == Lower(t)[i] <==> SameLetter(s[i], t[i])
    {
      LowerSameLetter(s[i], t[i]);
    }
    hide SameLetter, LowerChar;
    if Lower(s) == Lower(t) {
      assert forall i :: 0 <= i < |s| ==> Lower(s)[i] == Lower(t)[i];
    }
    if SameName(s, t) {
      assert forall i :: 0 <= i < |s| ==> Lower(s)[i] == Lower(t)[i];
    }
  }

  lemma MatchesExactlyWhen(e: HistoryEntry, reviewer: string)
    ensures Matches(e, Lower(reviewer)) <==> ApprovedBy(e, reviewer)
    ensures Throws(e) <==> Unreadable(e)
  {
    hide SameName, Lower;
    LowerApproved();
    if e.state.Text? {
      LowerSame(e.state.value, "approved");
    }
    if e.login.Text? {
      LowerSame(e.login.value, reviewer);
    }
  }

  lemma LowerApproved()
    ensures Lower("approved") == "approved"
  {
  }

  // ---------------------------------------------------------------- counting

  lemma {:induction false} CountZero(entries: seq<HistoryEntry>, expected: string)
    ensures MatchCount(entries, expected) == 0 <==>
      forall j :: 0 <= j < |entries| ==> !Matches(entries[j], expected)
  {
    hide Matches;
    if entries != [] {
      CountZero(entries[1..], expected);
      assert forall j :: 1 <= j < |entries| ==> entries[j] == entries[1..][j - 1];
    }
  }

  ghost predicate OnlyMatch(entries: seq<HistoryEntry>, expected: string, k: int)
  {
    && 0 <= k < |entries| && Matches(entries[k], expected)
    && forall j :: 0 <= j < |entries| && Matches(entries[j], expected) ==> j == k
  }

  lemma {:induction false} CountOne(entries: seq<HistoryEntry>, expected: string)
    ensures MatchCount(entries, expected) == 1 <==> exists k :: OnlyMatch(entries, expected, k)
  {
    hide Matches;
    if entries != [] {
      var tail := entries[1..];
      CountOne(tail, expected);
      CountZero(tail, expected);
      assert forall j :: 1 <= j < |entries| ==> entries[j] == tail[j - 1];
      if Matches(entries[0], expected) {
        if MatchCount(entries, expected) == 1 {
          assert OnlyMatch(entries, expected, 0);
        }
        if k :| OnlyMatch(entries, expected, k) {
          assert k == 0;
        }
      } else {
        if k :| OnlyMatch(tail, expected, k) {
          assert OnlyMatch(entries, expected, k + 1);
        }
        if k :| OnlyMatch(entries, expected, k) {
          assert OnlyMatch(tail, expected, k - 1);
        }
      }
    }
  }

  lemma OnlyMatchIsOnlyApproval(entries: seq<HistoryEntry>, reviewer: string)
    ensures (exists k :: OnlyMatch(entries, Lower(reviewer), k)) <==> exists k :: OnlyApproval(entries, reviewer, k)
  {
    hide Matches, ApprovedBy, Throws, Unreadable;
    forall e
      ensures Matches(e, Lower(reviewer)) <==> ApprovedBy(e, reviewer)
    {
      MatchesExactlyWhen(e, reviewer);
    }
    if k :| OnlyMatch(entries, Lower(reviewer), k) {
      assert OnlyApproval(entries, reviewer, k);
    }
    if k :| OnlyApproval(entries, reviewer, k) {
      assert OnlyMatch(entries, Lower(reviewer), k);
    }
  }

  /**
   * The verdict is positive exactly for an unchanged head and a readable history
   * with one independent approval; otherwise the first of these that fails is the reason.
   */
  lemma VerifiedExactlyWhenIndependent(entries: Option<seq<HistoryEntry>>, claim: Claim, author: string, sha: string,
                                       branch: string)
    ensures var proof := AssessApprovalHistory(entries, claim, author, sha, branch);
      var sameHead := sha == claim.commitSha && branch == claim.branch;
      var self := claim.reviewer == "" || SameName(claim.reviewer, author) ||
                  SameName(claim.reviewer, claim.invokingActor);
      var readable := entries.Some? && forall k :: 0 <= k < |entries.value| ==> !Unreadable(entries.value[k]);
      && (proof.verified <==>
            && entries.Some? && sameHead && readable
            && IndependentlyApproved(entries.value, claim.reviewer, author, claim.invokingActor))
      && (proof.verified ==> proof.reason == "GITHUB_APPROVAL_VERIFIED")
      && (proof.reason == "INVALID_GITHUB_APPROVAL_HISTORY" <==> entries.None?)
      && (proof.reason == "GITHUB_PR_HEAD_CHANGED" <==> entries.Some? && !sameHead)
      && (proof.reason == "SELF_APPROVAL" <==> entries.Some? && sameHead && self)
      && (proof.reason == "GITHUB_APPROVAL_LOOKUP_UNAVAILABLE" <==> entries.Some? && sameHead && !self && !readable)
      && (proof.reason == "INDEPENDENT_APPROVAL_NOT_VERIFIED" <==>
            entries.Some? && sameHead && !self && readable && !proof.verified)
  {
    hide Matches, MatchCount, OnlyMatch, Throws, Unreadable, OnlyApproval, SameName, Lower;
    LowerEmpty(claim.reviewer);
    LowerSame(claim.reviewer, author);
    LowerSame(claim.reviewer, claim.invokingActor);
    if entries.Some? {
      CountOne(entries.value, Lower(claim.reviewer));
      OnlyMatchIsOnlyApproval(entries.value, claim.reviewer);
      forall k | 0 <= k < |entries.value|
        ensures Throws(entries.value[k]) <==> Unreadable(entries.value[k])
      {
        MatchesExactlyWhen(entries.value[k], claim.reviewer);
      }
    }
  }

  lemma LowerEmpty(s: string)
    ensures Lower(s) == "" <==> s == ""
  {
  }
}
