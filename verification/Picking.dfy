/** What a consumer that takes some elements of a stream, in order, makes of it. */
module Picking {

  /** Positions in a stream, in order: exactly those of the elements that `picked` wants. */
  ghost predicate Picks<E>(at: seq<nat>, evs: seq<E>, picked: E -> bool) {
    && (forall i, j :: 0 <= i < j < |at| ==> at[i] < at[j])
    && (forall k: nat :: k in at <==> k < |evs| && picked(evs[k]))
  }

  /** Each item of `out` tells of the element at its position. */
  ghost predicate Tells<T, E>(out: seq<T>, at: seq<nat>, evs: seq<E>, tells: (T, E) -> bool) {
    |out| == |at| && forall i :: 0 <= i < |at| ==> at[i] < |evs| && tells(out[i], evs[at[i]])
  }

  /** `out` holds one item for each picked element, in order, and each item tells of its element. */
  ghost predicate Told<T, E>(out: seq<T>, at: seq<nat>, evs: seq<E>, picked: E -> bool, tells: (T, E) -> bool) {
    Picks(at, evs, picked) && Tells(out, at, evs, tells)
  }

  lemma PicksOneMore<E>(at: seq<nat>, evs: seq<E>, ev: E, picked: E -> bool)
    requires Picks(at, evs, picked)
    ensures Picks(if picked(ev) then at + [|evs|] else at, evs + [ev], picked)
  {
    forall i | 0 <= i < |at| ensures at[i] < |evs| { assert at[i] in at; }
    var at' := if picked(ev) then at + [|evs|] else at;
    forall k: nat ensures k in at' <==> k < |evs + [ev]| && picked((evs + [ev])[k]) {
      assert k in at' <==> k in at || (picked(ev) && k == |evs|);
    }
  }

  lemma TellsOneMore<T, E>(out: seq<T>, at: seq<nat>, evs: seq<E>, tells: (T, E) -> bool, ev: E, item: T)
    requires Tells(out, at, evs, tells)
    ensures Tells(out, at, evs + [ev], tells)
    ensures tells(item, ev) ==> Tells(out + [item], at + [|evs|], evs + [ev], tells)
  {
    var evs' := evs + [ev];
    forall i | 0 <= i < |at| ensures at[i] < |evs'| && tells(out[i], evs'[at[i]]) {
      assert evs'[at[i]] == evs[at[i]];
    }
    var out', at' := out + [item], at + [|evs|];
    if tells(item, ev) {
      forall i | 0 <= i < |at'| ensures at'[i] < |evs'| && tells(out'[i], evs'[at'[i]]) {
        if i < |at| {
          assert at'[i] == at[i] && out'[i] == out[i];
        }
      }
    }
  }

  lemma ToldOneMore<T, E>(out: seq<T>, at: seq<nat>, evs: seq<E>, picked: E -> bool, tells: (T, E) -> bool, item: T)
    requires evs != [] && Told(out, at, evs[..|evs| - 1], picked, tells) && (picked(evs[|evs| - 1]) ==> tells(item, evs[|evs| - 1]))
    ensures if picked(evs[|evs| - 1]) then Told(out + [item], at + [|evs| - 1], evs, picked, tells) else Told(out, at, evs, picked, tells)
  {
    PicksOneMore(at, evs[..|evs| - 1], evs[|evs| - 1], picked);
    TellsOneMore(out, at, evs[..|evs| - 1], tells, evs[|evs| - 1], item);
    assert evs[..|evs| - 1] + [evs[|evs| - 1]] == evs;
  }
}
