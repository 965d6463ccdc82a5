// Counting ballots: the tally of a vote, and ballots of distinct agents.
module Tallies {
  datatype Ballot = Ballot(agent: string, option: nat)

  function CountFor(ballots: seq<Ballot>, option: nat): nat {
    if ballots == [] then 0 else (if ballots[0].option == option then 1 else 0) + CountFor(ballots[1..], option)
  }

  function Sum(counts: seq<nat>): nat {
    if counts == [] then 0 else counts[0] + Sum(counts[1..])
  }

  function Tally(options: nat, ballots: seq<Ballot>): (counts: seq<nat>)
    ensures |counts| == options
    ensures forall i :: 0 <= i < options ==> counts[i] == CountFor(ballots, i)
  {
    seq(options, i requires 0 <= i => CountFor(ballots, i))
  }

  lemma {:induction false} CountSnoc(ballots: seq<Ballot>, b: Ballot, option: nat)
    ensures CountFor(ballots + [b], option) == CountFor(ballots, option) + if b.option == option then 1 else 0
  {
    if ballots == [] {
      assert [b][1..] == [];
    } else {
      assert (ballots + [b])[1..] == ballots[1..] + [b];
      CountSnoc(ballots[1..], b, option);
    }
  }

  method BuildVoteTally(options: nat, ballots: seq<Ballot>) returns (counts: seq<nat>)
    ensures counts == Tally(options, ballots)
  {
    var tally := new nat[options](_ => 0);
    var k := 0;
    while k < |ballots|
      invariant 0 <= k <= |ballots|
      invariant forall i :: 0 <= i < options ==> tally[i] == CountFor(ballots[..k], i)
    {
      assert ballots[..k + 1] == ballots[..k] + [ballots[k]];
      forall i: nat | i < options
        ensures CountFor(ballots[..k + 1], i) == tally[i] + if ballots[k].option == i then 1 else 0
      {
        CountSnoc(ballots[..k], ballots[k], i);
      }
      if ballots[k].option < tally.Length {
        tally[ballots[k].option] := tally[ballots[k].option] + 1;
      }
      k := k + 1;
    }
    assert ballots[..k] == ballots;
    counts := tally[..];
  }

  predicate InRange(options: nat, ballots: seq<Ballot>) {
    forall b :: b in ballots ==> b.option < options
  }

  lemma {:induction false} SumIncrement(counts: seq<nat>, more: seq<nat>, at: nat)
    requires |counts| == |more| && at < |counts| && more[at] == counts[at] + 1
    requires forall i :: 0 <= i < |counts| && i != at ==> more[i] == counts[i]
    ensures Sum(more) == Sum(counts) + 1
  {
    if at == 0 {
      assert more[1..] == counts[1..];
    } else {
      SumIncrement(counts[1..], more[1..], at - 1);
    }
  }

  lemma {:induction false} SumOfZeros(counts: seq<nat>)
    requires forall i :: 0 <= i < |counts| ==> counts[i] == 0
    ensures Sum(counts) == 0
  {
    if counts != [] { SumOfZeros(counts[1..]); }
  }

  // The tally sums to the number of ballots exactly when every ballot names an
  // existing option.
  lemma {:induction false} TallySumsExactly(options: nat, ballots: seq<Ballot>)
    ensures Sum(Tally(options, ballots)) <= |ballots|
    ensures Sum(Tally(options, ballots)) == |ballots| <==> InRange(options, ballots)
  {
    if ballots == [] {
      SumOfZeros(Tally(options, ballots));
    } else {
      var rest := ballots[1..];
      TallySumsExactly(options, rest);
      assert ballots == [ballots[0]] + rest;
      if ballots[0].option < options {
        SumIncrement(Tally(options, rest), Tally(options, ballots), ballots[0].option);
      } else {
        assert Tally(options, rest) == Tally(options, ballots);
      }
    }
  }

  predicate DistinctAgents(ballots: seq<Ballot>) {
    forall i, j :: 0 <= i < j < |ballots| ==> ballots[i].agent != ballots[j].agent
  }

  function AgentsOf(ballots: seq<Ballot>): set<string> {
    set b | b in ballots :: b.agent
  }

  lemma {:induction false} AgentsAreCounted(ballots: seq<Ballot>)
    requires DistinctAgents(ballots)
    ensures |AgentsOf(ballots)| == |ballots|
  {
    if ballots == [] {
      assert AgentsOf(ballots) == {};
    } else {
      AgentsAreCounted(ballots[1..]);
      assert ballots == [ballots[0]] + ballots[1..];
      assert AgentsOf(ballots) == AgentsOf(ballots[1..]) + {ballots[0].agent};
      assert ballots[0].agent !in AgentsOf(ballots[1..]);
    }
  }

  function Without(ballots: seq<Ballot>, at: nat): seq<Ballot>
    requires at < |ballots|
  {
    ballots[..at] + ballots[at + 1..]
  }

  lemma {:induction false} CountWithout(ballots: seq<Ballot>, at: nat, option: nat)
    requires at < |ballots|
    ensures CountFor(ballots, option) == CountFor(Without(ballots, at), option) + if ballots[at].option == option then 1 else 0
  {
    if at == 0 {
      assert Without(ballots, at) == ballots[1..];
    } else {
      CountWithout(ballots[1..], at - 1, option);
      assert Without(ballots, at)[1..] == Without(ballots[1..], at - 1);
    }
  }

  // Fewer ballots count less for every option.
  lemma {:induction false} TallyIsMonotone(part: seq<Ballot>, whole: seq<Ballot>, option: nat)
    requires DistinctAgents(part) && forall b :: b in part ==> b in whole
    ensures CountFor(part, option) <= CountFor(whole, option)
  {
    if part != [] {
      assert part[0] in whole;
      var at :| 0 <= at < |whole| && whole[at] == part[0];
      var rest := Without(whole, at);
      forall b | b in part[1..]
        ensures b in rest
      {
        assert b in whole;
        var k :| 0 <= k < |whole| && whole[k] == b;
        var j :| 0 <= j < |part[1..]| && part[1..][j] == b;
        assert part[j + 1] == b && k != at;
        assert rest[if k < at then k else k - 1] == b;
      }
      TallyIsMonotone(part[1..], rest, option);
      CountWithout(whole, at, option);
    }
  }
}
