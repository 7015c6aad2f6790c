/**
 The event bus: emit logs the payload before it hands the same object to the listeners, and
 logging masks in place.
 */
module Events {
  import opened Texts
  import opened LogMask

  lemma PayloadIsFollowed()
    ensures !Sensitive("payload")
  {
    SensitiveWords("payload");
  }

  /** A wrapper nobody refers to does not change where other objects lead. */
  lemma {:induction false} WrapperUnseen(h: Heap, info: Obj, props: Props, o: Obj, n: nat)
    requires Closed(FollowedLinks(h)) && info !in h && o in h
    ensures At(FollowedLinks(h[info := props]), o, n) == At(FollowedLinks(h), o, n)
    ensures At(FollowedLinks(h), o, n) <= h.Keys
    decreases n
  {
    var links, wider := FollowedLinks(h), FollowedLinks(h[info := props]);
    assert wider[o] == links[o];
    if n > 0 {
      forall c | c in links[o] ensures At(wider, c, n - 1) == At(links, c, n - 1) <= h.Keys {
        assert o in links && c in links;
        WrapperUnseen(h, info, props, c, n - 1);
      }
    }
  }

  /** What masking visits from the wrapper is the wrapper and what it visits from the payload. */
  lemma WrapperVisits(h: Heap, info: Obj, props: Props, payload: Obj)
    requires Acyclic(h) && info !in h && payload in h && Followed(props) == {payload}
    ensures Acyclic(h[info := props])
    ensures Visited(h[info := props], info) == {info} + Visited(h, payload)
  {
    var links, wider := FollowedLinks(h), FollowedLinks(h[info := props]);
    forall o, n: nat | o in h ensures At(wider, o, n) == At(links, o, n) && At(links, o, n) <= h.Keys {
      WrapperUnseen(h, info, props, o, n);
    }
    forall o, x | o in h ensures Leads(wider, o, x) <==> Leads(links, o, x) {
      if n: nat :| x in At(wider, o, n) {
        assert x in At(links, o, n);
      }
      if n: nat :| x in At(links, o, n) {
        assert x in At(wider, o, n);
      }
    }
    assert wider[info] == {payload} && forall o | o in h :: wider[o] == links[o];
    forall o, c | o in wider && c in wider[o] ensures c in wider && !Leads(wider, c, o) {
      if o == info {
        assert forall n: nat :: At(links, c, n) <= h.Keys;
      } else {
        assert o in links && c in links[o];
        assert c in links;
      }
    }
    forall x | x in wider ensures x in Visited(h[info := props], info) <==> x == info || x in Visited(h, payload) {
      ReachUnfolds(wider, info, x);
      assert x in Reach(wider, payload) ==> x in h by {
        if n: nat :| x in At(wider, payload, n) {
          assert At(links, payload, n) <= h.Keys;
        }
      }
    }
  }

  /**
   emit: `logged` tells whether the log level lets the line through. The logger masks what it
   is given, a fresh object around the payload, and the listeners get the payload after that.
   */
  method Emit(event: string, payload: Obj, logged: bool, ghost objects: set<Obj>) returns (delivered: Obj)
    requires payload in objects && Acyclic(HeapOf(objects))
    modifies objects
    ensures delivered == payload
    ensures HeapOf(objects) ==
            if logged then MaskAll(old(HeapOf(objects)), Visited(old(HeapOf(objects)), payload))
            else old(HeapOf(objects))
  {
    ghost var h := HeapOf(objects);
    if logged {
      var props := map["message" := Text("[EventBus] Emitting event: " + event), "payload" := Ref(payload)];
      var info := new Obj(props);
      PayloadIsFollowed();
      assert props["payload"] == Ref(payload);
      assert Followed(props) == {payload};
      WrapperVisits(h, info, props, payload);
      ghost var all := objects + {info};
      assert HeapOf(all) == h[info := props];
      LogPipeline(Ref(info), all);
      ghost var visited := Visited(h[info := props], info);
      forall o | o in objects ensures o.props == MaskAll(h, Visited(h, payload))[o] {
        assert o.props == HeapOf(all)[o] == MaskAll(h[info := props], visited)[o];
      }
    }
    delivered := payload;
  }

  /**
   Listeners get the payload as it was emitted exactly if the line is not logged, or everything
   sensitive that masking follows from the payload was masked already.
   */
  lemma DeliveredUnchangedIff(h: Heap, payload: Obj, logged: bool)
    ensures (if logged then MaskAll(h, Visited(h, payload)) else h) == h
       <==> !logged || forall x, name | x in Visited(h, payload) && x in h && name in h[x] && Sensitive(name) :: h[x][name] == MASKED
  {
    MaskingSparesIff(h, payload);
  }

  lemma PlainNames()
    ensures Sensitive("email") && !Sensitive("userId") && !Sensitive("orderId") && !Sensitive("buyerId")
  {
    SensitiveWords("email");
    SensitiveWords("userId");
    SensitiveWords("orderId");
    SensitiveWords("buyerId");
    assert LowerCase("email") == "email";
    assert LowerCase("userId")[0] == 'u';
  }

  /** So a logged USER_REGISTERED reaches its listeners without the email, and an ORDER_CREATED as it was. */
  lemma RegisteredEmailIsMasked(h: Heap, payload: Obj, userId: string, email: string)
    requires payload in h && h[payload] == map["userId" := Text(userId), "email" := Text(email)]
    ensures MaskAll(h, Visited(h, payload))[payload] == map["userId" := Text(userId), "email" := Text("***MASKED***")]
  {
    PlainNames();
    ReachUnfolds(FollowedLinks(h), payload, payload);
  }

  lemma OrderCreatedIsDelivered(h: Heap, payload: Obj, orderId: string, buyerId: string)
    requires payload in h && h[payload] == map["orderId" := Text(orderId), "buyerId" := Text(buyerId)]
    ensures MaskAll(h, Visited(h, payload))[payload] == h[payload]
  {
    PlainNames();
  }
}
