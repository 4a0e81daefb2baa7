/** Comparing the checksum queues of all players round by round. */
module Consensus {
  import opened Bytes

  type Queues = map<u8, seq<u32>>

  predicate HasRounds(q: Queues, rounds: nat)
  {
    forall p | p in q :: |q[p]| >= rounds
  }

  predicate IsShortest(q: Queues, ids: set<u8>, p: u8)
    requires ids <= q.Keys
  {
    p in ids && forall other | other in ids :: |q[p]| <= |q[other]|
  }

  lemma {:induction false} ShortestExists(q: Queues, ids: set<u8>)
    requires ids != {} && ids <= q.Keys
    ensures exists p :: IsShortest(q, ids, p)
    decreases ids
  {
    var p :| p in ids;
    var rest := ids - {p};
    assert ids == rest + {p};
    if rest == {} {
      assert IsShortest(q, ids, p);
    } else {
      ShortestExists(q, rest);
      var best :| IsShortest(q, rest, best);
      assert IsShortest(q, ids, if |q[p]| <= |q[best]| then p else best);
    }
  }

  /** The length of the shortest queue: rounds every player has reported. */
  ghost function CompleteRounds(q: Queues): (n: nat)
    ensures HasRounds(q, n)
    ensures q != map[] ==> exists p :: p in q && |q[p]| == n
  {
    if q == map[] then 0
    else
      ShortestExists(q, q.Keys);
      var p :| IsShortest(q, q.Keys, p);
      |q[p]|
  }

  /** Round `r` holds two different checksums. */
  predicate Disagree(q: Queues, r: nat)
    requires HasRounds(q, r + 1)
  {
    exists a, b | a in q && b in q :: q[a][r] != q[b][r]
  }

  /** The first `rounds` rounds each hold a single checksum. */
  predicate AgreedUpTo(q: Queues, rounds: nat)
    requires HasRounds(q, rounds)
  {
    forall r | 0 <= r < rounds :: !Disagree(q, r)
  }

  /** The first round from `r` on that disagrees, or `n`. */
  ghost function FirstDisagreement(q: Queues, r: nat, n: nat): (k: nat)
    requires r <= n && HasRounds(q, n)
    ensures r <= k <= n
    ensures forall i | r <= i < k :: !Disagree(q, i)
    ensures k < n ==> Disagree(q, k)
    decreases n - r
  {
    if r == n || Disagree(q, r) then r else FirstDisagreement(q, r + 1, n)
  }

  datatype Verdict = Verdict(desync: bool, rounds: nat)

  /** A desync is found at the first disagreeing complete round; otherwise all complete rounds are spent. */
  ghost function Judge(q: Queues): (v: Verdict)
    ensures HasRounds(q, v.rounds)
  {
    var n := CompleteRounds(q);
    var k := FirstDisagreement(q, 0, n);
    if k < n then Verdict(true, k + 1) else Verdict(false, n)
  }

  /** `v` spends rounds up to and including the first disagreement, or all complete rounds. */
  ghost predicate IsVerdict(q: Queues, v: Verdict)
  {
    && HasRounds(q, v.rounds)
    && AgreedUpTo(q, if v.desync && v.rounds > 0 then v.rounds - 1 else v.rounds)
    && if v.desync then v.rounds > 0 && Disagree(q, v.rounds - 1) else v.rounds == CompleteRounds(q)
  }

  /** A desync is reported exactly when some complete round holds two different checksums. */
  lemma JudgeMeaning(q: Queues)
    ensures IsVerdict(q, Judge(q))
    ensures Judge(q).desync <==> exists r: nat :: r < CompleteRounds(q) && Disagree(q, r)
  {
  }

  /** The verdict is determined by what it says: the loop and any other implementation must agree. */
  lemma JudgeUnique(q: Queues, v: Verdict)
    requires IsVerdict(q, v)
    ensures v == Judge(q)
  {
    var w := Judge(q);
    JudgeMeaning(q);
    RoundsAreComplete(q, v);
    RoundsAreComplete(q, w);
  }

  lemma RoundsAreComplete(q: Queues, v: Verdict)
    requires IsVerdict(q, v)
    ensures v.rounds <= CompleteRounds(q)
  {
    if q != map[] {
      var p :| p in q && |q[p]| == CompleteRounds(q);
    }
  }
}
