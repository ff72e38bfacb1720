/** The map of saved peers that the pairing steps work on is the one the peer store keeps. */
module PairingStore {
  import opened Basics
  import opened Bytes
  import opened PairingSteps
  import PeerTable

  /** How addresses and saved peers are written. */
  datatype Form = Form(address: Mac -> seq<Byte>, entry: Saved -> PeerTable.Entry)

  ghost predicate Injective(form: Form) {
    forall a: Mac, b: Mac :: form.address(a) == form.address(b) ==> a == b
  }

  /** The peer store holds the same peers, written in this form. */
  ghost predicate Represents(form: Form, store: map<Mac, Saved>, peers: map<seq<Byte>, PeerTable.Entry>) {
    && (forall m :: m in store ==> form.address(m) in peers && peers[form.address(m)] == form.entry(store[m]))
    && (forall b :: b in peers ==> exists m :: m in store && form.address(m) == b)
  }

  lemma OneLess<K, V>(m: map<K, V>, k: K)
    requires k in m
    ensures |m - {k}| == |m| - 1
  {
    assert (m - {k}).Keys == m.Keys - {k};
    assert |(m - {k}).Keys| == |m - {k}| && |m.Keys| == |m|;
  }

  /** One peer fewer, on both sides. */
  lemma Without(form: Form, store: map<Mac, Saved>, peers: map<seq<Byte>, PeerTable.Entry>, m: Mac)
    returns (smaller: map<Mac, Saved>, fewer: map<seq<Byte>, PeerTable.Entry>)
    requires Injective(form) && Represents(form, store, peers) && m in store
    ensures Represents(form, smaller, fewer) && |smaller| == |store| - 1 && |fewer| == |peers| - 1
  {
    smaller, fewer := store - {m}, peers - {form.address(m)};
    OneLess(store, m);
    OneLess(peers, form.address(m));
    forall b | b in fewer
      ensures exists q :: q in smaller && form.address(q) == b
    {
      var q :| q in store && form.address(q) == b;
      assert q in smaller;
    }
  }

  lemma NothingRepresented(form: Form, store: map<Mac, Saved>, peers: map<seq<Byte>, PeerTable.Entry>)
    requires Represents(form, store, peers) && store == map[]
    ensures |store| == |peers|
  {
    assert peers.Keys == {};
  }

  lemma {:induction false} SameSize(form: Form, store: map<Mac, Saved>, peers: map<seq<Byte>, PeerTable.Entry>)
    requires Injective(form) && Represents(form, store, peers)
    ensures |store| == |peers|
    decreases |store|
  {
    hide Represents, Injective;
    if store == map[] {
      NothingRepresented(form, store, peers);
    } else {
      var m :| m in store;
      var smaller, fewer := Without(form, store, peers, m);
      SameSize(form, smaller, fewer);
    }
  }

  /** What `save_peer` of the peer store promises - when it refuses, and the map afterwards - is what pairing assumes of
      it. */
  lemma SavesAgree(form: Form, n: Node, io: Io, peers: map<seq<Byte>, PeerTable.Entry>)
    requires Injective(form) && Represents(form, n.store, peers) && |n.store| <= MAX_SAVED_PEERS
    ensures
      var mac := form.address(n.tx.peer);
      var entry := form.entry(Saved(n.tx.lmk, n.tx.channel, n.tx.role));
      && (SaveError(n, io) == NO_MEM <==> !n.config.replaceExisting && mac !in peers && |peers| == MAX_SAVED_PEERS)
      && (SaveError(n, io) == OK <==> SaveError(n, io) != NO_MEM && io.saveOk)
      && Represents(form, SavePeer(n).store, (if n.config.replaceExisting then map[] else peers)[mac := entry])
      && (forall m :: m in n.runtime && m !in SavePeer(n).runtime <==>
            m in n.runtime && n.config.replaceExisting && form.address(m) in peers && form.address(m) != mac)
  {
    hide Injective, Represents;
    SameSize(form, n.store, peers);
    Known(form, n.store, peers);
    NothingSaved(form);
    var saved := Saved(n.tx.lmk, n.tx.channel, n.tx.role);
    SavedOne(form, n.store, peers, n.tx.peer, saved);
    SavedOne(form, map[], map[], n.tx.peer, saved);
  }

  lemma NothingSaved(form: Form)
    ensures Represents(form, map[], map[])
  {
  }

  lemma SavedOne(form: Form, store: map<Mac, Saved>, peers: map<seq<Byte>, PeerTable.Entry>, m: Mac, saved: Saved)
    requires Injective(form) && Represents(form, store, peers)
    ensures Represents(form, store[m := saved], peers[form.address(m) := form.entry(saved)])
  {
    var after := peers[form.address(m) := form.entry(saved)];
    forall b | b in after
      ensures exists q :: q in store[m := saved] && form.address(q) == b
    {
      if b == form.address(m) {
        assert m in store[m := saved];
      } else {
        var q :| q in store && form.address(q) == b;
        assert q in store[m := saved];
      }
    }
  }

  lemma Known(form: Form, store: map<Mac, Saved>, peers: map<seq<Byte>, PeerTable.Entry>)
    requires Injective(form) && Represents(form, store, peers)
    ensures forall m: Mac :: m in store <==> form.address(m) in peers
    ensures forall a: Mac, b: Mac :: form.address(a) == form.address(b) ==> a == b
  {
    forall m: Mac
      ensures m in store <==> form.address(m) in peers
    {
      if form.address(m) in peers {
        var q :| q in store && form.address(q) == form.address(m);
        assert q == m;
      }
    }
  }
}
