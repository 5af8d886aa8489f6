/** The client's methods take the steps of the slot's transition system: what they do
    to the slot is what those steps do, in an order in which each is possible. */
module ClientSteps {
  import opened Seqs
  import opened Text
  import opened Eapi
  import Slot = SessionSlot

  /** The steps of one call. */
  function Opens(id: nat, slot: nat, net: Net): seq<Slot.Step> {
    if slot > 0 then [Slot.Start(id), Slot.Expire(id)]
    else if net.Broken? then [Slot.Start(id), Slot.Acquire(id), Slot.OpenFails(id)]
    else [Slot.Start(id), Slot.Acquire(id), Slot.OpenOk(id)]
  }

  function Closes(id: nat, open: bool): seq<Slot.Step> {
    if open then [Slot.BeginClose(id), Slot.MarkClosed(id), Slot.Release(id)] else [Slot.CloseRefused(id)]
  }

  lemma TwoSteps(s: Slot.State, a: Slot.Step, b: Slot.Step)
    requires Slot.Enabled(s, a) && Slot.OwnerIsCareful(s, a)
    requires Slot.Enabled(Slot.Next(s, a), b) && Slot.OwnerIsCareful(Slot.Next(s, a), b)
    ensures Slot.CarefulFrom(s, [a, b]) && Slot.After(s, [a, b]) == Slot.Next(Slot.Next(s, a), b)
  {
    var s2 := Slot.Next(Slot.Next(s, a), b);
    assert [a, b][1..] == [b] && [b][1..] == [];
    assert Slot.CarefulFrom(s2, []) && Slot.After(s2, []) == s2;
    assert Slot.CarefulFrom(Slot.Next(s, a), [b]) && Slot.After(Slot.Next(s, a), [b]) == s2;
  }

  lemma OneStep(s: Slot.State, a: Slot.Step)
    requires Slot.Enabled(s, a) && Slot.OwnerIsCareful(s, a)
    ensures Slot.CarefulFrom(s, [a]) && Slot.After(s, [a]) == Slot.Next(s, a)
  {
    assert [a][1..] == [];
    assert Slot.CarefulFrom(Slot.Next(s, a), []) && Slot.After(Slot.Next(s, a), []) == Slot.Next(s, a);
  }

  lemma ThenStep(s: Slot.State, a: Slot.Step, rest: seq<Slot.Step>)
    requires Slot.Enabled(s, a) && Slot.OwnerIsCareful(s, a) && Slot.CarefulFrom(Slot.Next(s, a), rest)
    ensures Slot.CarefulFrom(s, [a] + rest) && Slot.After(s, [a] + rest) == Slot.After(Slot.Next(s, a), rest)
  {
    ConsParts(a, rest);
  }

  /** An opener's steps, for a new caller, from any counted state. */
  lemma OpenSteps(s: Slot.State, id: nat, net: Net)
    requires id !in s.calls && s.slot <= 1
    ensures Slot.CarefulFrom(s, Opens(id, s.slot, net))
    ensures var t := Slot.After(s, Opens(id, s.slot, net));
            && t.slot == (if s.slot > 0 then s.slot else if net.Broken? then 0 else 1)
            && t.calls == s.calls[id := if s.slot == 0 && !net.Broken? then Slot.Live(true, 0, 0) else Slot.Gone]
  {
    var s1 := Slot.Next(s, Slot.Start(id));
    if s.slot > 0 {
      TwoSteps(s, Slot.Start(id), Slot.Expire(id));
    } else {
      var last := if net.Broken? then Slot.OpenFails(id) else Slot.OpenOk(id);
      TwoSteps(s1, Slot.Acquire(id), last);
      ThenStep(s, Slot.Start(id), [Slot.Acquire(id), last]);
      assert [Slot.Start(id)] + [Slot.Acquire(id), last] == Opens(id, s.slot, net);
    }
  }

  /** A closer's steps, for a session that is not being closed already. */
  lemma CloseSteps(s: Slot.State, id: nat)
    requires Slot.IsLive(s, id) && s.calls[id].closing == 0
    ensures Slot.CarefulFrom(s, Closes(id, s.calls[id].open))
    ensures var t := Slot.After(s, Closes(id, s.calls[id].open));
            var c := s.calls[id];
            && t.slot == (if c.open && s.slot > 0 then s.slot - 1 else s.slot)
            && t.calls == s.calls[id := Slot.Live(false, 0, c.releasing)]
  {
    if s.calls[id].open {
      var s1 := Slot.Next(s, Slot.BeginClose(id));
      TwoSteps(s1, Slot.MarkClosed(id), Slot.Release(id));
      ThenStep(s, Slot.BeginClose(id), [Slot.MarkClosed(id), Slot.Release(id)]);
      assert [Slot.BeginClose(id)] + [Slot.MarkClosed(id), Slot.Release(id)] == Closes(id, true);
    } else {
      OneStep(s, Slot.CloseRefused(id));
      assert s.calls[id := Slot.Live(false, 0, s.calls[id].releasing)] == s.calls;
    }
  }

  /** The session object and the record of its call agree. */
  ghost predicate Agrees<C>(sess: Session<C>, s: Slot.State, id: nat)
    reads sess, sess.parent
  {
    sess.parent.slot == s.slot && Slot.IsLive(s, id) && s.calls[id].open == sess.open && s.calls[id].closing == 0
  }

  method OpenTracked<C>(cli: Client<C>, name: string, net: Net, ghost s: Slot.State, ghost id: nat)
    returns (sess: Session?<C>, err: Option<Error>, ghost t: Slot.State)
    requires name != "" && cli.slot <= 1 && cli.slot == s.slot && id !in s.calls
    modifies cli, cli.node
    ensures Slot.CarefulFrom(s, Opens(id, s.slot, net)) && t == Slot.After(s, Opens(id, s.slot, net))
    ensures cli.slot == t.slot
    ensures (sess != null <==> Slot.IsLive(t, id)) && (sess != null ==> Agrees(sess, t, id))
  {
    OpenSteps(s, id, net);
    t := Slot.After(s, Opens(id, s.slot, net));
    sess, err := cli.OpenSession(name, net);
  }

  method CommitTracked<C>(sess: Session<C>, net: Net, ghost s: Slot.State, ghost id: nat)
    returns (err: Option<Error>, ghost t: Slot.State)
    requires Agrees(sess, s, id)
    modifies sess, sess.parent, sess.parent.node
    ensures Slot.CarefulFrom(s, Closes(id, old(sess.open))) && t == Slot.After(s, Closes(id, old(sess.open)))
    ensures Agrees(sess, t, id)
  {
    CloseSteps(s, id);
    t := Slot.After(s, Closes(id, sess.open));
    err := sess.Commit(net);
  }

  method AbortTracked<C>(sess: Session<C>, net: Net, ghost s: Slot.State, ghost id: nat)
    returns (err: Option<Error>, ghost t: Slot.State)
    requires Agrees(sess, s, id)
    modifies sess, sess.parent, sess.parent.node
    ensures Slot.CarefulFrom(s, Closes(id, old(sess.open))) && t == Slot.After(s, Closes(id, old(sess.open)))
    ensures Agrees(sess, t, id)
  {
    CloseSteps(s, id);
    t := Slot.After(s, Closes(id, sess.open));
    err := sess.Abort(net);
  }
}
