/**
 maskPII: recursive masking, in place, of an object graph whose objects may be shared. The
 heap is looked at through `HeapOf`, the properties of a set of objects at one moment; what
 masking does is then a function of that.
 */
module LogMask {
  import opened Texts

  datatype Value =
    | Null
    | Text(text: string)
    | Other                       // numbers, booleans, functions: not objects
    | Ref(obj: Obj)

  type Props = map<string, Value>

  class Obj {
    var props: Props

    constructor (props: Props)
      ensures this.props == props
    {
      this.props := props;
    }
  }

  const MASKED := Text("***MASKED***")

  const SENSITIVE_KEYS: seq<string> := ["password", "token", "email", "cardNumber", "cvv", "creditCard"]

  predicate Sensitive(name: string) {
    LowerCase(name) in SENSITIVE_KEYS
  }

  /** The names that are masked: four words in any case. The two listed names with a capital letter never match. */
  lemma SensitiveIff(name: string)
    ensures Sensitive(name) <==> exists word | word in {"password", "token", "email", "cvv"} :: SameLetters(name, word)
  {
    LowerCaseIff(name, "password");
    LowerCaseIff(name, "token");
    LowerCaseIff(name, "email");
    LowerCaseIff(name, "cvv");
    SensitiveWords(name);
  }

  lemma SensitiveWords(name: string)
    ensures Sensitive(name) <==> LowerCase(name) in {"password", "token", "email", "cvv"}
  {
    var lower := LowerCase(name);
    assert |name| > 4 ==> lower[4] != "cardNumber"[4];
    assert |name| > 6 ==> lower[6] != "creditCard"[6];
    assert SENSITIVE_KEYS[0] == "password" && SENSITIVE_KEYS[1] == "token" && SENSITIVE_KEYS[2] == "email";
    assert SENSITIVE_KEYS[4] == "cvv";
  }

  /* ---- What masking means, on the heap as a value ---- */

  type Heap = map<Obj, Props>

  ghost function HeapOf(objects: set<Obj>): (h: Heap)
    reads objects
    ensures h.Keys == objects
  {
    map o | o in objects :: o.props
  }

  function MaskedProps(props: Props): Props {
    map name | name in props :: if Sensitive(name) then MASKED else props[name]
  }

  /** The objects held in properties that are not sensitive. */
  ghost function Followed(props: Props): set<Obj> {
    set name | name in props && !Sensitive(name) && props[name].Ref? :: props[name].obj
  }

  ghost function Held(props: Props): set<Obj> {
    set name | name in props && props[name].Ref? :: props[name].obj
  }

  /* ---- Where references lead ---- */

  type Links = map<Obj, set<Obj>>

  ghost function FollowedLinks(h: Heap): Links {
    map o | o in h :: Followed(h[o])
  }

  ghost function HeldLinks(h: Heap): Links {
    map o | o in h :: Held(h[o])
  }

  /** The objects `n` references away from `o`. */
  ghost function At(links: Links, o: Obj, n: nat): set<Obj>
    decreases n, 0
  {
    if n == 0 then {o} else if o in links then AtAny(links, links[o], n - 1) else {}
  }

  ghost function AtAny(links: Links, from: set<Obj>, n: nat): set<Obj>
    decreases n, 1
  {
    set c, x | c in from && x in At(links, c, n) :: x
  }

  ghost predicate Leads(links: Links, o: Obj, x: Obj) {
    exists n: nat :: x in At(links, o, n)
  }

  /** `o` and all it leads to. */
  ghost function Reach(links: Links, o: Obj): set<Obj> {
    set x | x in links && Leads(links, o, x)
  }

  ghost predicate Closed(links: Links) {
    forall o, c | o in links && c in links[o] :: c in links
  }

  /** Nothing leads back to where it came from. */
  ghost predicate LoopFree(links: Links) {
    forall o, c | o in links && c in links[o] :: !Leads(links, c, o)
  }

  /** Numbers that go down along references. */
  predicate Ranks(links: Links, rank: map<Obj, nat>) {
    && links.Keys <= rank.Keys
    && (forall o, c | o in links && c in links[o] :: c in links && rank[c] < rank[o])
  }

  lemma OneFurther(links: Links, o: Obj, n: nat, x: Obj)
    requires o in links
    ensures x in At(links, o, n + 1) <==> exists c :: c in links[o] && x in At(links, c, n)
  {
    assert At(links, o, n + 1) == AtAny(links, links[o], n);
  }

  lemma LeadsOn(links: Links, o: Obj, c: Obj, x: Obj)
    requires o in links && c in links[o] && Leads(links, c, x)
    ensures Leads(links, o, x)
  {
    var n: nat :| x in At(links, c, n);
    OneFurther(links, o, n, x);
    assert x in At(links, o, n + 1);
  }

  /** Where `o` leads is `o` and where its references lead. */
  lemma ReachUnfolds(links: Links, o: Obj, x: Obj)
    requires o in links && x in links
    ensures x in Reach(links, o) <==> x == o || exists c :: c in links[o] && x in Reach(links, c)
  {
    if x == o {
      assert x in At(links, o, 0);
    } else if Leads(links, o, x) {
      var n: nat :| x in At(links, o, n);
      OneFurther(links, o, n - 1, x);
      var c :| c in links[o] && x in At(links, c, n - 1);
      assert Leads(links, c, x);
    }
    forall c | c in links[o] && x in Reach(links, c) ensures x in Reach(links, o) {
      LeadsOn(links, o, c, x);
    }
  }

  lemma ReachShrinks(links: Links, o: Obj, c: Obj)
    requires LoopFree(links) && o in links && c in links[o]
    ensures |Reach(links, c)| < |Reach(links, o)|
  {
    forall x | x in Reach(links, c) ensures x in Reach(links, o) {
      LeadsOn(links, o, c, x);
    }
    ReachUnfolds(links, o, o);
    var rest := Reach(links, o) - Reach(links, c);
    assert o in rest;
    assert Reach(links, o) == Reach(links, c) + rest;
  }

  lemma {:induction false} RankFalls(links: Links, rank: map<Obj, nat>, o: Obj, n: nat, x: Obj)
    requires Ranks(links, rank) && o in links && x in At(links, o, n)
    ensures x in links && rank[x] + n <= rank[o]
    decreases n
  {
    if n > 0 {
      OneFurther(links, o, n - 1, x);
      var c :| c in links[o] && x in At(links, c, n - 1);
      RankFalls(links, rank, c, n - 1, x);
    }
  }

  /** References have no loop exactly when the objects can be numbered so that references go down. */
  lemma LoopFreeIffRanked(links: Links)
    requires Closed(links)
    ensures LoopFree(links) <==> exists rank :: Ranks(links, rank)
  {
    if LoopFree(links) {
      var rank := map o | o in links :: |Reach(links, o)|;
      forall o, c | o in links && c in links[o] ensures c in links && rank[c] < rank[o] {
        ReachShrinks(links, o, c);
      }
      assert Ranks(links, rank);
    }
    if rank :| Ranks(links, rank) {
      forall o, c | o in links && c in links[o] ensures !Leads(links, c, o) {
        if n: nat :| o in At(links, c, n) {
          RankFalls(links, rank, c, n, o);
        }
      }
    }
  }

  /** Nothing is `depth` references away from `o` or more: the stack of calls of `mask` stays below that. */
  ghost predicate Shallow(links: Links, o: Obj, depth: nat) {
    forall n: nat | n >= depth :: At(links, o, n) == {}
  }

  /** The recursion of `mask` on `o` ends. */
  ghost predicate Ends(links: Links, o: Obj) {
    exists depth: nat :: Shallow(links, o, depth)
  }

  lemma {:induction false} LeadsFar(links: Links, o: Obj, m: nat, x: Obj, n: nat, y: Obj)
    requires x in At(links, o, m) && y in At(links, x, n)
    ensures y in At(links, o, m + n)
    decreases m
  {
    if m > 0 {
      assert o in links;
      OneFurther(links, o, m + n - 1, y);
      var c :| c in links[o] && x in At(links, c, m - 1);
      LeadsFar(links, c, m - 1, x, n, y);
    }
  }

  lemma {:induction false} LoopsRepeat(links: Links, o: Obj, n: nat, times: nat) returns (far: nat)
    requires n > 0 && o in At(links, o, n)
    ensures far >= times && o in At(links, o, far)
  {
    if times == 0 {
      far := n;
    } else {
      far := LoopsRepeat(links, o, n, times - 1);
      LeadsFar(links, o, far, o, n, o);
      far := far + n;
    }
  }

  /** The recursion ends from every object exactly when the references it follows have no loop. */
  lemma EndsIffLoopFree(links: Links)
    requires Closed(links)
    ensures (forall o | o in links :: Ends(links, o)) <==> LoopFree(links)
  {
    if LoopFree(links) {
      LoopFreeIffRanked(links);
      var rank :| Ranks(links, rank);
      forall o | o in links ensures Ends(links, o) {
        forall n: nat | n >= rank[o] + 1 ensures At(links, o, n) == {} {
          if x :| x in At(links, o, n) {
            RankFalls(links, rank, o, n, x);
          }
        }
        assert Shallow(links, o, rank[o] + 1);
      }
    } else {
      var o, c :| o in links && c in links[o] && Leads(links, c, o);
      var n: nat :| o in At(links, c, n);
      OneFurther(links, o, n, o);
      forall depth: nat ensures !Shallow(links, o, depth) {
        var far := LoopsRepeat(links, o, n + 1, depth);
      }
      assert !Ends(links, o);
    }
  }

  /* ---- What masking does ---- */

  /** The objects masking from `o` gets to, through properties that are not sensitive. */
  ghost function Visited(h: Heap, o: Obj): set<Obj> {
    Reach(FollowedLinks(h), o)
  }

  /** The objects that can be got to from `o` through any property. */
  ghost function Reachable(h: Heap, o: Obj): set<Obj> {
    Reach(HeldLinks(h), o)
  }

  /** The references masking follows stay inside the heap and have no loop. */
  ghost predicate Acyclic(h: Heap) {
    Closed(FollowedLinks(h)) && LoopFree(FollowedLinks(h))
  }

  /** The heap with the objects of `s` masked. */
  ghost function MaskAll(h: Heap, s: set<Obj>): Heap {
    map o | o in h :: if o in s then MaskedProps(h[o]) else h[o]
  }

  lemma MaskedOnce(props: Props)
    ensures MaskedProps(MaskedProps(props)) == MaskedProps(props)
    ensures Followed(MaskedProps(props)) == Followed(props)
    ensures Held(MaskedProps(props)) == Followed(props)
  {
    var masked := MaskedProps(props);
    forall name | name in props && !Sensitive(name) && props[name].Ref?
      ensures props[name].obj in Followed(masked) && props[name].obj in Held(masked)
    {
      assert masked[name] == props[name];
    }
  }

  lemma MaskAllKeepsLinks(h: Heap, s: set<Obj>)
    ensures FollowedLinks(MaskAll(h, s)) == FollowedLinks(h)
  {
    forall o | o in h ensures Followed(MaskAll(h, s)[o]) == Followed(h[o]) {
      MaskedOnce(h[o]);
    }
  }

  /* ---- The theorems about masking ---- */

  lemma {:induction false} SameSteps(h: Heap, s: set<Obj>, o: Obj, n: nat)
    requires Closed(FollowedLinks(h)) && o in h && Visited(h, o) <= s
    ensures At(HeldLinks(MaskAll(h, s)), o, n) == At(FollowedLinks(h), o, n)
    decreases n
  {
    var links := FollowedLinks(h);
    ReachUnfolds(links, o, o);
    MaskedOnce(h[o]);
    assert HeldLinks(MaskAll(h, s))[o] == links[o];
    if n > 0 {
      forall c | c in links[o] ensures At(HeldLinks(MaskAll(h, s)), c, n - 1) == At(links, c, n - 1) {
        assert o in links && c in links;
        forall x | x in Visited(h, c) ensures x in Visited(h, o) {
          LeadsOn(links, o, c, x);
        }
        SameSteps(h, s, c, n - 1);
      }
    }
  }

  /** After masking, what can be reached at all is what was visited. */
  lemma ReachableAfter(h: Heap, s: set<Obj>, o: Obj)
    requires Closed(FollowedLinks(h)) && o in h && Visited(h, o) <= s
    ensures Reachable(MaskAll(h, s), o) == Visited(h, o)
  {
    var links, held := FollowedLinks(h), HeldLinks(MaskAll(h, s));
    forall n: nat ensures At(held, o, n) == At(links, o, n) {
      SameSteps(h, s, o, n);
    }
    assert forall x :: Leads(held, o, x) <==> Leads(links, o, x);
  }

  /**
   Masking from `o` leaves every property that can still be reached and whose lower-cased
   name is password, token, email or cvv masked. Every other property of every object keeps
   its value, and objects not visited keep all of theirs.
   */
  lemma MaskingHidesAndSpares(h: Heap, o: Obj)
    requires Closed(FollowedLinks(h)) && o in h
    ensures var k := MaskAll(h, Visited(h, o));
            && (forall x, name | x in Reachable(k, o) && x in k && name in k[x] && Sensitive(name) ::
                  k[x][name] == Text("***MASKED***"))
            && (forall x | x in h :: x in k && k[x].Keys == h[x].Keys)
            && (forall x, name | x in h && name in h[x] && (!Sensitive(name) || x !in Visited(h, o)) ::
                  k[x][name] == h[x][name])
  {
    ReachableAfter(h, Visited(h, o), o);
  }

  lemma MaskTwice(h: Heap, s: set<Obj>)
    ensures MaskAll(MaskAll(h, s), s) == MaskAll(h, s)
  {
    forall o | o in h && o in s ensures MaskedProps(MaskedProps(h[o])) == MaskedProps(h[o]) {
      MaskedOnce(h[o]);
    }
  }

  /** Masking a second time, as both log formats do, changes nothing. */
  lemma MaskingIsIdempotent(h: Heap, o: Obj)
    ensures var k := MaskAll(h, Visited(h, o)); MaskAll(k, Visited(k, o)) == k
  {
    MaskAllKeepsLinks(h, Visited(h, o));
    MaskTwice(h, Visited(h, o));
  }

  /** Masking changes nothing exactly when everything it would mask is masked already. */
  lemma MaskingSparesIff(h: Heap, o: Obj)
    ensures MaskAll(h, Visited(h, o)) == h
       <==> forall x, name | x in Visited(h, o) && x in h && name in h[x] && Sensitive(name) :: h[x][name] == MASKED
  {
    var k := MaskAll(h, Visited(h, o));
    if k == h {
      forall x, name | x in Visited(h, o) && x in h && name in h[x] && Sensitive(name) ensures h[x][name] == MASKED {
        assert k[x] == MaskedProps(h[x]);
      }
    } else {
      var x :| x in h && k[x] != h[x];
      assert x in Visited(h, o) && MaskedProps(h[x]).Keys == h[x].Keys;
      var name :| name in h[x] && MaskedProps(h[x])[name] != h[x][name];
    }
  }

  /* ---- The recursive, in-place algorithm ---- */

  /** The properties of an object when the names in `done` have been dealt with. */
  function PartlyMasked(props: Props, done: set<string>): Props {
    map name | name in props :: if name in done && Sensitive(name) then MASKED else props[name]
  }

  ghost function VisitedVia(h: Heap, o: Obj, done: set<string>): set<Obj>
    requires o in h
  {
    set name, x | name in done && name in h[o] && !Sensitive(name) && h[o][name].Ref? && x in Visited(h, h[o][name].obj) :: x
  }

  ghost function MidwayProps(h: Heap, o: Obj, done: set<string>, x: Obj): Props
    requires o in h && x in h
  {
    if x == o then PartlyMasked(h[o], done)
    else if x in VisitedVia(h, o, done) then MaskedProps(h[x])
    else h[x]
  }

  /** The heap inside the loop over the names of `o`. */
  ghost function Midway(h: Heap, o: Obj, done: set<string>): Heap
    requires o in h
  {
    map x | x in h :: MidwayProps(h, o, done, x)
  }

  lemma MidwayKeepsLinks(h: Heap, o: Obj, done: set<string>)
    requires o in h
    ensures FollowedLinks(Midway(h, o, done)) == FollowedLinks(h)
  {
    var k := Midway(h, o, done);
    forall x | x in h ensures Followed(h[x]) == Followed(k[x]) {
      MaskedOnce(h[x]);
      if x == o {
        forall name | name in h[o] && !Sensitive(name) && h[o][name].Ref? ensures h[o][name].obj in Followed(k[o]) {
          assert k[o][name] == h[o][name];
        }
      }
    }
  }

  lemma MidwayStart(h: Heap, o: Obj)
    requires o in h
    ensures Midway(h, o, {}) == h
  {
    assert VisitedVia(h, o, {}) == {};
    assert PartlyMasked(h[o], {}) == h[o];
  }

  lemma VisitedViaAll(h: Heap, o: Obj)
    requires Closed(FollowedLinks(h)) && o in h
    ensures Visited(h, o) == {o} + VisitedVia(h, o, h[o].Keys)
  {
    var links, via := FollowedLinks(h), VisitedVia(h, o, h[o].Keys);
    forall x | x in Visited(h, o) && x != o ensures x in via {
      ReachUnfolds(links, o, x);
      var c :| c in links[o] && x in Reach(links, c);
      assert c in Followed(h[o]);
      var name :| name in h[o] && !Sensitive(name) && h[o][name].Ref? && h[o][name].obj == c;
      assert name in h[o].Keys && x in Visited(h, h[o][name].obj);
    }
    forall x | x in via ensures x in Visited(h, o) {
      var name :| name in h[o] && !Sensitive(name) && h[o][name].Ref? && x in Visited(h, h[o][name].obj);
      assert h[o][name].obj in links[o];
      ReachUnfolds(links, o, x);
    }
    ReachUnfolds(links, o, o);
  }

  lemma MidwayEnd(h: Heap, o: Obj)
    requires Closed(FollowedLinks(h)) && o in h
    ensures Midway(h, o, h[o].Keys) == MaskAll(h, Visited(h, o))
  {
    VisitedViaAll(h, o);
    assert PartlyMasked(h[o], h[o].Keys) == MaskedProps(h[o]);
    forall x | x in h ensures Midway(h, o, h[o].Keys)[x] == MaskAll(h, Visited(h, o))[x] {
      assert Midway(h, o, h[o].Keys)[x] == MidwayProps(h, o, h[o].Keys, x);
    }
  }

  /** A sensitive name dealt with. */
  lemma MidwayMask(h: Heap, o: Obj, done: set<string>, name: string)
    requires o in h && name in h[o] && Sensitive(name)
    ensures Midway(h, o, done + {name}) == Midway(h, o, done)[o := Midway(h, o, done)[o][name := MASKED]]
  {
    assert VisitedVia(h, o, done + {name}) == VisitedVia(h, o, done);
    assert PartlyMasked(h[o], done + {name}) == PartlyMasked(h[o], done)[name := MASKED];
  }

  /** A name that holds no object dealt with. */
  lemma MidwaySkip(h: Heap, o: Obj, done: set<string>, name: string)
    requires o in h && name in h[o] && !Sensitive(name) && !h[o][name].Ref?
    ensures Midway(h, o, done + {name}) == Midway(h, o, done)
  {
    assert VisitedVia(h, o, done + {name}) == VisitedVia(h, o, done);
    assert PartlyMasked(h[o], done + {name}) == PartlyMasked(h[o], done);
  }

  /** A name whose object has been recursed into; it may have been visited before. */
  lemma MidwayRecurse(h: Heap, o: Obj, done: set<string>, name: string)
    requires Acyclic(h) && o in h && name in h[o] && !Sensitive(name) && h[o][name].Ref?
    ensures var k := Midway(h, o, done);
            Midway(h, o, done + {name}) == MaskAll(k, Visited(k, h[o][name].obj))
  {
    var k, c := Midway(h, o, done), h[o][name].obj;
    MidwayKeepsLinks(h, o, done);
    forall x | x in h ensures Midway(h, o, done + {name})[x] == MaskAll(k, Visited(k, c))[x] {
      RecurseAt(h, o, done, name, x);
    }
  }

  lemma ViaGrows(h: Heap, o: Obj, done: set<string>, name: string)
    requires o in h && name in h[o] && !Sensitive(name) && h[o][name].Ref?
    ensures VisitedVia(h, o, done + {name}) == VisitedVia(h, o, done) + Visited(h, h[o][name].obj)
  {
  }

  lemma RecurseAt(h: Heap, o: Obj, done: set<string>, name: string, x: Obj)
    requires Acyclic(h) && o in h && name in h[o] && !Sensitive(name) && h[o][name].Ref? && x in h
    ensures MidwayProps(h, o, done + {name}, x)
         == if x in Visited(h, h[o][name].obj) then MaskedProps(MidwayProps(h, o, done, x)) else MidwayProps(h, o, done, x)
  {
    if x == o {
      assert h[o][name].obj in FollowedLinks(h)[o];
      assert PartlyMasked(h[o], done + {name}) == PartlyMasked(h[o], done);
    } else {
      ViaGrows(h, o, done, name);
      MaskedOnce(h[x]);
    }
  }

  /** The part of the loop body that deals with one property; `rank` shows that the recursion ends. */
  method MaskProperty(o: Obj, name: string, ghost objects: set<Obj>, ghost rank: map<Obj, nat>, ghost h: Heap,
                      ghost done: set<string>)
    requires Acyclic(h) && Ranks(FollowedLinks(h), rank) && o in h && name in h[o] && name !in done
    requires HeapOf(objects) == Midway(h, o, done)
    modifies objects
    ensures HeapOf(objects) == Midway(h, o, done + {name})
    decreases rank[o], 0
  {
    assert o.props == HeapOf(objects)[o] == PartlyMasked(h[o], done);
    if Sensitive(name) {
      MidwayMask(h, o, done, name);
      o.props := o.props[name := MASKED];
      assert HeapOf(objects) == Midway(h, o, done)[o := o.props];
    } else {
      match o.props[name]
      case Ref(obj) =>
        MidwayRecurse(h, o, done, name);
        MidwayKeepsLinks(h, o, done);
        assert obj in FollowedLinks(h)[o];
        Mask(obj, objects, rank);
      case _ =>
        MidwaySkip(h, o, done, name);
    }
  }

  /**
   `mask` on an object. `objects` is any set of objects that holds `o` and what is followed
   from them.
   */
  method Mask(o: Obj, ghost objects: set<Obj>, ghost rank: map<Obj, nat>)
    requires o in objects && Acyclic(HeapOf(objects)) && Ranks(FollowedLinks(HeapOf(objects)), rank)
    modifies objects
    ensures HeapOf(objects) == MaskAll(old(HeapOf(objects)), Visited(old(HeapOf(objects)), o))
    decreases rank[o], 1
  {
    ghost var h := HeapOf(objects);
    var todo := o.props.Keys;
    ghost var done: set<string> := {};
    MidwayStart(h, o);
    while todo != {}
      invariant todo !! done && todo + done == h[o].Keys
      invariant HeapOf(objects) == Midway(h, o, done)
      decreases todo
    {
      var name :| name in todo;
      todo := todo - {name};
      MaskProperty(o, name, objects, rank, h, done);
      done := done + {name};
    }
    assert done == h[o].Keys;
    MidwayEnd(h, o);
  }

  /** The winston format: anything that is not an object is returned untouched. */
  method MaskPII(info: Value, ghost objects: set<Obj>)
    requires Acyclic(HeapOf(objects)) && (info.Ref? ==> info.obj in objects)
    modifies objects
    ensures HeapOf(objects) ==
            if info.Ref? then MaskAll(old(HeapOf(objects)), Visited(old(HeapOf(objects)), info.obj))
            else old(HeapOf(objects))
  {
    if info.Ref? {
      LoopFreeIffRanked(FollowedLinks(HeapOf(objects)));
      ghost var rank :| Ranks(FollowedLinks(HeapOf(objects)), rank);
      Mask(info.obj, objects, rank);
    }
  }

  /** What a logged object goes through: the logger's format, then the console transport's. */
  method LogPipeline(info: Value, ghost objects: set<Obj>)
    requires Acyclic(HeapOf(objects)) && (info.Ref? ==> info.obj in objects)
    modifies objects
    ensures HeapOf(objects) ==
            if info.Ref? then MaskAll(old(HeapOf(objects)), Visited(old(HeapOf(objects)), info.obj))
            else old(HeapOf(objects))
  {
    ghost var h := HeapOf(objects);
    MaskPII(info, objects);
    if info.Ref? {
      MaskAllKeepsLinks(h, Visited(h, info.obj));
      MaskingIsIdempotent(h, info.obj);
    }
    MaskPII(info, objects);
  }
}
