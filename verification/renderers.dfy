/**
 The renderer owns a list of passes. Each slot holds a pass or nothing; a pass
 keeps its identity, modelled as an id handed out by a counter, for as long as
 it stays in its slot.
 */
module Renderers {
  import opened Wrappers
  import Passes

  datatype Slot = Slot(id: nat, pass: Passes.Pass)

  datatype Renderer = Renderer(passes: seq<Option<Slot>>, nextId: nat)

  ghost predicate IdsBelow(slots: seq<Option<Slot>>, bound: nat) {
    forall i :: 0 <= i < |slots| && slots[i].Some? ==> slots[i].value.id < bound
  }

  ghost predicate IdsDistinct(slots: seq<Option<Slot>>) {
    forall i, j :: 0 <= i < j < |slots| && slots[i].Some? && slots[j].Some? ==>
      slots[i].value.id != slots[j].value.id
  }

  /** Every pass has a distinct id below the counter. */
  ghost predicate Valid(r: Renderer) {
    IdsBelow(r.passes, r.nextId) && IdsDistinct(r.passes)
  }

  function Init(): (r: Renderer)
    ensures Valid(r) && |r.passes| == 0
  {
    Renderer([], 0)
  }

  /** `n_passes()`. */
  function NumPasses(r: Renderer): nat {
    |r.passes|
  }

  /** `std::vector::resize(n)`: keeps the first `n` slots and pads with empty ones. */
  function Resize(slots: seq<Option<Slot>>, n: nat): (r: seq<Option<Slot>>)
    ensures |r| == n
    ensures forall i :: 0 <= i < n ==> r[i] == (if i < |slots| then slots[i] else None)
  {
    if n <= |slots| then slots[..n] else slots + seq(n - |slots|, _ => None)
  }

  lemma ResizeValid(slots: seq<Option<Slot>>, n: nat, bound: nat)
    requires IdsBelow(slots, bound) && IdsDistinct(slots)
    ensures IdsBelow(Resize(slots, n), bound) && IdsDistinct(Resize(slots, n))
  {
  }

  /** `set_n_passes(n)`: resize the list to `n` slots, then fill every empty slot
      with a new pass. */
  method SetNumPasses(r: Renderer, n: nat) returns (r': Renderer)
    requires Valid(r)
    ensures Valid(r')
    ensures NumPasses(r') == n
    ensures forall i :: 0 <= i < n ==> r'.passes[i].Some?
    ensures forall i :: 0 <= i < n && i < |r.passes| && r.passes[i].Some? ==> r'.passes[i] == r.passes[i]
    ensures forall i :: 0 <= i < n && (i >= |r.passes| || r.passes[i].None?) ==>
      r'.passes[i].value.pass == Passes.Init() && r.nextId <= r'.passes[i].value.id
    ensures r.nextId <= r'.nextId
  {
    var slots := Resize(r.passes, n);
    ResizeValid(r.passes, n, r.nextId);
    ghost var resized := slots;
    var next := r.nextId;
    var i := 0;
    while i < n
      invariant 0 <= i <= n && |slots| == n
      invariant r.nextId <= next
      invariant forall j :: 0 <= j < i ==> slots[j].Some?
      invariant forall j :: 0 <= j < n && (j >= i || resized[j].Some?) ==> slots[j] == resized[j]
      invariant forall j :: 0 <= j < i && resized[j].None? ==>
        slots[j].value.pass == Passes.Init() && r.nextId <= slots[j].value.id
      invariant IdsBelow(slots, next) && IdsDistinct(slots)
    {
      if slots[i].None? {
        slots := Fill(slots, i, next);
        next := next + 1;
      }
      i := i + 1;
    }
    r' := Renderer(slots, next);
  }

  /** Puts a new pass with a fresh id into an empty slot. */
  function Fill(slots: seq<Option<Slot>>, i: nat, next: nat): (r: seq<Option<Slot>>)
    requires i < |slots| && slots[i].None?
    requires IdsBelow(slots, next) && IdsDistinct(slots)
    ensures r == slots[i := Some(Slot(next, Passes.Init()))]
    ensures IdsBelow(r, next + 1) && IdsDistinct(r)
  {
    slots[i := Some(Slot(next, Passes.Init()))]
  }
}
