/** The scope chain of the checker as it is mutated: guard lists per scope, and the stored
    proofs of bindings (src/sema/typecheck.c:510-540, 600-634). */
module ResultScopes {
  import opened Ir
  import opened ResultFlow

  /** The results a guard list proves; a cleared guard proves nothing. */
  function Proven(gs: seq<Option<nat>>): set<nat> {
    set i | 0 <= i < |gs| && gs[i].Some? :: gs[i].value
  }

  function Cleared(gs: seq<Option<nat>>, b: nat): seq<Option<nat>> {
    seq(|gs|, i requires 0 <= i < |gs| => if gs[i] == Some(b) then None else gs[i])
  }

  lemma {:induction false} ClearedProves(gs: seq<Option<nat>>, b: nat)
    ensures Proven(Cleared(gs, b)) == Proven(gs) - {b}
  {
    var after := Cleared(gs, b);
    forall n | n in Proven(gs) - {b}
      ensures n in Proven(after)
    {
      var i :| 0 <= i < |gs| && gs[i] == Some(n);
      assert after[i] == Some(n);
    }
    forall n | n in Proven(after)
      ensures n in Proven(gs) - {b}
    {
      var i :| 0 <= i < |after| && after[i] == Some(n);
      assert gs[i] == Some(n);
    }
  }

  class Scopes {
    var infos: seq<Info>
    var guards: seq<seq<Option<nat>>>

    constructor (infos: seq<Info>)
      ensures Facts() == Flow(infos, [{}])
    {
      this.infos, guards := infos, [[]];
      new;
      assert Facts().guards[0] == {} && Facts().guards == [{}];
    }

    function Facts(): Flow
      reads this
    {
      Flow(infos, seq(|guards|, i requires 0 <= i < |guards| reads this => Proven(guards[i])))
    }

    method IsOk(b: nat) returns (ok: bool)
      ensures ok == ProvenOk(Facts(), b)
    {
      for i := 0 to |guards|
        invariant forall k :: 0 <= k < i ==> b !in Proven(guards[k])
      {
        for j := 0 to |guards[i]|
          invariant forall k :: 0 <= k < j ==> guards[i][k] != Some(b)
        {
          if guards[i][j] == Some(b) {
            assert b in Facts().guards[i];
            return true;
          }
        }
      }
      return false;
    }

    /** A result already guarded in the scope is not guarded twice. */
    method MarkOk(b: nat)
      requires guards != []
      modifies this`guards
      ensures Facts() == Mark(old(Facts()), {b}) && |guards| == |old(guards)|
    {
      for j := 0 to |guards[0]|
        invariant forall k :: 0 <= k < j ==> guards[0][k] != Some(b)
      {
        if guards[0][j] == Some(b) {
          assert b in Proven(guards[0]);
          assert Facts().guards[0] + {b} == Facts().guards[0];
          return;
        }
      }
      ghost var before := guards;
      guards := [[Some(b)] + guards[0]] + guards[1..];
      assert Proven(guards[0]) == Proven(before[0]) + {b} by {
        assert guards[0][0] == Some(b);
        assert forall i :: 0 <= i < |before[0]| ==> guards[0][i + 1] == before[0][i];
      }
    }

    method InvalidateResultProofs(b: nat)
      modifies this
      ensures Facts() == Invalidate(old(Facts()), b) && |guards| == |old(guards)|
    {
      for i := 0 to |guards|
        invariant |guards| == |old(guards)| && infos == old(infos)
        invariant forall k :: 0 <= k < i ==> guards[k] == Cleared(old(guards)[k], b)
        invariant forall k :: i <= k < |guards| ==> guards[k] == old(guards)[k]
      {
        var gs := guards[i];
        for j := 0 to |gs|
          invariant |gs| == |old(guards)[i]|
          invariant forall k :: 0 <= k < j ==> gs[k] == Cleared(old(guards)[i], b)[k]
          invariant forall k :: j <= k < |gs| ==> gs[k] == old(guards)[i][k]
        {
          if gs[j] == Some(b) {
            gs := gs[j := None];
          }
        }
        guards := guards[i := gs];
      }
      ghost var cleared := guards;
      for i := 0 to |infos|
        invariant guards == cleared && |infos| == |old(infos)|
        invariant forall k :: 0 <= k < i ==> infos[k] == Dropped(old(infos)[k], b)
        invariant forall k :: i <= k < |infos| ==> infos[k] == old(infos)[k]
      {
        if infos[i].proof.Some? && DependsOn(infos[i].proof, b) {
          infos := infos[i := infos[i].(proof := None)];
        }
      }
      forall k | 0 <= k < |guards|
        ensures Facts().guards[k] == old(Facts()).guards[k] - {b}
      {
        ClearedProves(old(guards)[k], b);
      }
    }
  }
}
