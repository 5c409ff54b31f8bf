/** The pointers of the timer vectors: every slot is the head of a list linked through the timers,
    and prev leads back to the slot or to the timer before. */
module TimerLinks {
  import opened Lists
  import opened Chains
  import opened TimerWheel

  /** The number of a slot among all slots. */
  function Key(s: Slot): nat {
    256 * s.lv + s.i
  }

  lemma KeyUnique(s: Slot, t: Slot)
    requires InRange(s) && InRange(t) && Key(s) == Key(t)
    ensures s == t
  {
  }

  /** The pointers say what the lists are. */
  ghost predicate Threaded(h: Hooks, vec: Vec)
    requires Shaped(vec)
  {
    forall s :: InRange(s) ==> Chain(h, Key(s), At(vec, s))
  }

  /** Timers that are not pending have no pointers. */
  ghost predicate Held(h: Hooks, place: map<nat, Slot>) {
    h.pprev.Keys == place.Keys && h.next.Keys <= place.Keys
  }

  lemma InOneList(vec: Vec, place: map<nat, Slot>, s: Slot, t: Slot, id: nat)
    requires Linked(vec, place) && InRange(s) && InRange(t) && id in At(vec, s)
    ensures id in place && place[id] == s && (id in At(vec, t) ==> s == t)
  {
    assert ListOk(At(vec, s), place, s) && ListOk(At(vec, t), place, t);
  }

  /** insert_timer */
  lemma PushTimer(h: Hooks, vec: Vec, place: map<nat, Slot>, s: Slot, id: nat)
    requires Shaped(vec) && Linked(vec, place) && Threaded(h, vec) && Held(h, place) && InRange(s) && id !in place
    ensures Threaded(Pushed(h, Key(s), id), Put(vec, s, [id] + At(vec, s)))
    ensures Held(Pushed(h, Key(s), id), place[id := s])
  {
    hide Chain, SameHooks, Linked, Put;
    var list := At(vec, s);
    forall t, x | InRange(t) && x in At(vec, t)
      ensures x in place && (x in list ==> t == s)
    {
      InOneList(vec, place, t, s, x);
    }
    assert Chain(h, Key(s), list) && id !in list;
    PushChain(h, Key(s), list, id);
    var h', vec' := Pushed(h, Key(s), id), Put(vec, s, [id] + list);
    forall t | InRange(t) ensures Chain(h', Key(t), At(vec', t)) {
      if t != s {
        assert Chain(h, Key(t), At(vec, t));
        if Key(t) == Key(s) { KeyUnique(t, s); }
        OtherChain(h, h', Members(list) + {id}, Key(s), Key(t), At(vec, t));
      }
    }
    FirstIsHeld(h, Key(s), list);
  }

  lemma FirstIsHeld(h: Hooks, b: nat, s: seq<nat>)
    requires Chain(h, b, s)
    ensures b in h.first ==> h.first[b] in h.pprev
  {
    if s != [] { assert Hooked(h, b, s, 0); }
  }

  /** detach_timer */
  lemma PullTimer(h: Hooks, vec: Vec, place: map<nat, Slot>, id: nat)
    requires Linked(vec, place) && Threaded(h, vec) && Held(h, place) && id in place
    ensures id in h.pprev && InRange(place[id])
    ensures Threaded(Pulled(h, id), Put(vec, place[id], Remove(At(vec, place[id]), id)))
    ensures Held(Pulled(h, id), place - {id})
  {
    var s := place[id];
    var list := At(vec, s);
    assert ListOk(list, place, s);
    var a, c := Cut(list, id);
    hide Chain, SameHooks, Linked, Put, Remove, Pulled;
    assert Chain(h, Key(s), list);
    PullChain(h, Key(s), a, id, c);
    PullKeys(h, Key(s), a, id, c);
    var h', vec' := Pulled(h, id), Put(vec, s, Remove(list, id));
    forall t | InRange(t) ensures Chain(h', Key(t), At(vec', t)) {
      if t != s {
        assert Chain(h, Key(t), At(vec, t));
        if Key(t) == Key(s) { KeyUnique(t, s); }
        forall x | x in At(vec, t) ensures x !in Members(list) { InOneList(vec, place, t, s, x); }
        OtherChain(h, h', Members(list), Key(s), Key(t), At(vec, t));
      }
    }
  }

  // ---- A cascade

  ghost predicate LeadsOn(h: Hooks, rest: seq<nat>, i: nat)
    requires i < |rest|
  {
    if i + 1 < |rest| then rest[i] in h.next && h.next[rest[i]] == rest[i + 1] else rest[i] !in h.next
  }

  /** Following next pointers from its first goes through the list. */
  ghost predicate Leads(h: Hooks, rest: seq<nat>) {
    forall i :: 0 <= i < |rest| ==> LeadsOn(h, rest, i)
  }

  /** All slots but s are as their pointers say; of what was in s the rest is still to be moved. */
  ghost predicate Cascading(h: Hooks, vec: Vec, s: Slot, rest: seq<nat>)
    requires Shaped(vec)
  {
    (forall t :: InRange(t) && t != s ==> Chain(h, Key(t), At(vec, t))) && Leads(h, rest)
  }

  lemma CascadeBegins(h: Hooks, vec: Vec, s: Slot)
    requires Shaped(vec) && InRange(s) && Threaded(h, vec)
    ensures Cascading(h, vec, s, At(vec, s))
    ensures Look(h.first, Key(s)) == (if At(vec, s) == [] then None else Some(At(vec, s)[0]))
  {
    var list := At(vec, s);
    assert Chain(h, Key(s), list);
    forall i | 0 <= i < |list| ensures LeadsOn(h, list, i) {
      assert Hooked(h, Key(s), list, i);
    }
  }

  lemma CascadeMoves(h: Hooks, vec: Vec, place: map<nat, Slot>, s: Slot, id: nat, rest: seq<nat>, t: Slot)
    requires Shaped(vec) && InRange(s) && InRange(t) && s != t && Linked(Put(vec, s, [id] + rest), place)
    requires Cascading(h, vec, s, [id] + rest) && Held(h, place)
    ensures Look(h.next, id) == (if rest == [] then None else Some(rest[0]))
    ensures Cascading(Pushed(h, Key(t), id), Put(vec, t, [id] + At(vec, t)), s, rest)
    ensures Held(Pushed(h, Key(t), id), place[id := t])
  {
    hide Chain, SameHooks, Linked, Put;
    var v0 := Put(vec, s, [id] + rest);
    var list, all := At(vec, t), [id] + rest;
    assert all[0] == id && id in At(v0, s);
    InOneList(v0, place, s, t, id);
    assert id !in At(v0, t);
    PushChain(h, Key(t), list, id);
    FirstIsHeld(h, Key(t), list);
    var h', vec' := Pushed(h, Key(t), id), Put(vec, t, [id] + list);
    forall r | InRange(r) && r != s ensures Chain(h', Key(r), At(vec', r)) {
      if r != t {
        if Key(r) == Key(t) { KeyUnique(r, t); }
        forall x | x in At(v0, r)
          ensures x !in Members(list) + {id}
        {
          InOneList(v0, place, r, t, x); InOneList(v0, place, r, s, x);
        }
        OtherChain(h, h', Members(list) + {id}, Key(t), Key(r), At(vec, r));
      }
    }
    RestLeads(h, v0, place, s, id, rest, t);
  }

  lemma RestLeads(h: Hooks, v0: Vec, place: map<nat, Slot>, s: Slot, id: nat, rest: seq<nat>, t: Slot)
    requires Shaped(v0) && InRange(s) && InRange(t) && s != t && Linked(v0, place) && At(v0, s) == [id] + rest
    requires Leads(h, [id] + rest) && Chain(h, Key(t), At(v0, t))
    ensures Leads(Pushed(h, Key(t), id), rest) && Look(h.next, id) == (if rest == [] then None else Some(rest[0]))
  {
    var all := [id] + rest;
    assert ListOk(At(v0, s), place, s);
    assert all[0] == id && LeadsOn(h, all, 0);
    var h' := Pushed(h, Key(t), id);
    forall i | 0 <= i < |rest| ensures LeadsOn(h', rest, i) {
      assert rest[i] == all[i + 1] && all[0] != all[i + 1] && LeadsOn(h, all, i + 1);
      if i + 1 < |rest| { assert rest[i + 1] == all[i + 2]; }
    }
    if rest != [] { assert all[1] == rest[0]; }
  }

  /** The pointer to the slot is cleared when all its timers have moved. */
  lemma CascadeEnds(h: Hooks, vec: Vec, s: Slot)
    requires Shaped(vec) && InRange(s) && Cascading(h, vec, s, [])
    ensures Threaded(h.(first := h.first - {Key(s)}), Put(vec, s, []))
  {
    hide Put;
    var h' := h.(first := h.first - {Key(s)});
    forall t | InRange(t) ensures Chain(h', Key(t), At(Put(vec, s, []), t)) {
      if t != s {
        assert Chain(h, Key(t), At(vec, t));
        if Key(t) == Key(s) { KeyUnique(t, s); }
        assert SameHooks(h, h', {}, Key(s));
        OtherChain(h, h', {}, Key(s), Key(t), At(vec, t));
      }
    }
  }
}
