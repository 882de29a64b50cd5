/** What setting a value at a path does to the whole document, whether or not the path leads
    anywhere: when it succeeds, what it leaves alone, and what it makes up on the way. */
module JsonPathSet {
  import opened Text
  import opened Json
  import opened JsonPaths

  /** How many steps of the path are there. */
  function Reached(j: Value, p: Path): (n: nat)
    ensures n <= |p| && Follow(j, p[..n]).Some?
    ensures n < |p| ==> Get(Follow(j, p[..n]).value, p[n]).None?
    decreases |p|
  {
    if p == [] || Get(j, p[0]).None? then 0
    else
      var n := Reached(Get(j, p[0]).value, p[1..]);
      assert p[..n + 1][1..] == p[1..][..n];
      n + 1
  }

  /** The value at which the path stops. */
  function Stop(j: Value, p: Path): Value {
    Follow(j, p[..Reached(j, p)]).value
  }

  predicate OnlyKeys(p: Path) {
    forall i | 0 <= i < |p| :: p[i].Key?
  }

  /** The value comes to stand at the path: it is there, or it goes on from an object by keys only. */
  predicate Succeeds(j: Value, p: Path) {
    var n := Reached(j, p);
    n == |p| || (Stop(j, p).Object? && OnlyKeys(p[n..]))
  }

  /** The path stops at a value that has no such steps, or at an index past the end that is its last. */
  predicate Refused(j: Value, p: Path) {
    var n := Reached(j, p);
    n < |p| && (if p[n].Key? then !Stop(j, p).Object? else !Stop(j, p).Array? || n == |p| - 1)
  }

  // ---- one step ----

  lemma StepsOn(j: Value, p: Path)
    requires p != [] && Get(j, p[0]).Some?
    ensures var child := Get(j, p[0]).value;
            && Reached(j, p) == Reached(child, p[1..]) + 1 && Stop(j, p) == Stop(child, p[1..])
            && (Succeeds(j, p) <==> Succeeds(child, p[1..]))
            && (|p| > 1 ==> (Refused(j, p) <==> Refused(child, p[1..])))
  {
    var n := Reached(Get(j, p[0]).value, p[1..]);
    assert p[..n + 1][1..] == p[1..][..n];
    assert p[n + 1..] == p[1..][n..];
  }

  /** One step of a set, where the first step is there. */
  lemma SetStepsOn(j: Value, p: Path, v: Value)
    requires |p| > 1 && Get(j, p[0]).Some?
    ensures var child, after := Get(j, p[0]).value, SetSegments(j, p, v);
            && Get(after, p[0]) == Some(SetSegments(child, p[1..], v))
            && (SetSegments(child, p[1..], v) == child ==> after == j)
            && forall seg | seg != p[0] :: Get(after, seg) == Get(j, seg)
  {
    if p[0].Key? && j.fields[p[0].name] == SetSegments(j.fields[p[0].name], p[1..], v) {
      assert j.fields[p[0].name := j.fields[p[0].name]] == j.fields;
    }
    if p[0].Index? {
      assert j.items[p[0].index := j.items[p[0].index]] == j.items;
    }
  }

  // ---- from a value just made ----

  /** A new object takes a path of keys, and only such a path. */
  lemma {:induction false} SetInFresh(p: Path, v: Value)
    requires p != []
    ensures Follow(SetSegments(Object(map[]), p, v), p) == Some(v) <==> OnlyKeys(p)
    ensures !OnlyKeys(p) ==> Follow(SetSegments(Object(map[]), p, v), p) == None
  {
    var made := Object(map[]);
    var after := SetSegments(made, p, v);
    if p[0].Key? && |p| > 1 {
      SetInFresh(p[1..], v);
      assert OnlyKeys(p) <==> OnlyKeys(p[1..]) by {
        if OnlyKeys(p[1..]) { forall i | 0 <= i < |p| ensures p[i].Key? { if i > 0 { assert p[1..][i - 1].Key?; } } }
      }
      assert Get(after, p[0]) == Some(SetSegments(made, p[1..], v));
    } else if p[0].Key? {
      assert Get(after, p[0]) == Some(v) && p[1..] == [];
    } else {
      assert Get(after, p[0]) == None;
    }
  }

  /** Nothing goes below null. */
  lemma NullStays(p: Path, v: Value)
    ensures SetSegments(Null, p, v) == Null && (p != [] ==> Follow(Null, p) == None)
  {
  }

  // ---- the outcome ----

  /** Where the first step is missing. */
  lemma SetAtStop(j: Value, p: Path, v: Value)
    requires p != [] && Get(j, p[0]).None?
    ensures var after := SetSegments(j, p, v);
            && (Succeeds(j, p) ==> Follow(after, p) == Some(v))
            && (!Succeeds(j, p) ==> Follow(after, p) == None)
            && (Refused(j, p) ==> after == j) && (!Refused(j, p) ==> after != j)
  {
    var after := SetSegments(j, p, v);
    assert p[..0] == [] && p[0..] == p && Reached(j, p) == 0 && Stop(j, p) == j;
    if p[0].Key? && j.Object? {
      if |p| > 1 {
        SetInFresh(p[1..], v);
        assert OnlyKeys(p) <==> OnlyKeys(p[1..]) by {
          if OnlyKeys(p[1..]) { forall i | 0 <= i < |p| ensures p[i].Key? { if i > 0 { assert p[1..][i - 1].Key?; } } }
        }
      }
      assert p[0].name in after.fields && p[0].name !in j.fields;
      assert Get(after, p[0]).Some?;
    } else if p[0].Index? && j.Array? && |p| > 1 {
      NullStays(p[1..], v);
      assert |after.items| > |j.items|;
    }
  }

  /** Main result: the value stands at the path afterwards exactly when the path is there, or
      stops at an object from which only keys go on. A set that fails leaves the document as it
      was exactly when it is refused where the path stops; otherwise it has changed it. */
  lemma {:induction false} SetOutcome(j: Value, p: Path, v: Value)
    requires p != []
    ensures Follow(SetSegments(j, p, v), p) == Some(v) <==> Succeeds(j, p)
    ensures !Succeeds(j, p) ==> (SetSegments(j, p, v) == j <==> Refused(j, p))
    decreases |p|
  {
    if Get(j, p[0]).None? {
      SetAtStop(j, p, v);
    } else if |p| == 1 {
      StepsOn(j, p);
      assert p[1..] == [] && Reached(Get(j, p[0]).value, []) == 0;
      assert Get(SetSegments(j, p, v), p[0]) == Some(v);
    } else {
      var child := Get(j, p[0]).value;
      StepsOn(j, p);
      SetStepsOn(j, p, v);
      SetOutcome(child, p[1..], v);
      if SetSegments(j, p, v) == j { assert SetSegments(child, p[1..], v) == child; }
    }
  }

  // ---- the rest of the document ----

  /** Neither position lies on the way to the other. */
  predicate Apart(p: Path, q: Path) {
    !(p <= q) && !(q <= p)
  }

  lemma ApartStep(p: Path, q: Path)
    requires Apart(p, q) && p[0] == q[0]
    ensures Apart(p[1..], q[1..])
  {
    assert p == [p[0]] + p[1..] && q == [q[0]] + q[1..];
  }

  /** Main result: a set leaves alone every other position of the document, and what it makes
      up away from the path is null. */
  lemma {:induction false} SetFrame(j: Value, p: Path, q: Path, v: Value)
    requires Apart(p, q)
    ensures var before, after := Follow(j, q), Follow(SetSegments(j, p, v), q);
            after == before || (before == None && after == Some(Null))
    decreases |p|
  {
    var after := SetSegments(j, p, v);
    if p[0] != q[0] {
      OtherSteps(j, p, q[0], v);
    } else {
      ApartStep(p, q);
      assert |p| > 1;
      if Get(j, p[0]).Some? {
        SetStepsOn(j, p, v);
        SetFrame(Get(j, p[0]).value, p[1..], q[1..], v);
      } else if p[0].Key? && j.Object? {
        SetFrame(Object(map[]), p[1..], q[1..], v);
        assert Get(after, p[0]) == Some(SetSegments(Object(map[]), p[1..], v));
        assert Get(Object(map[]), q[1]) == None;
      } else if p[0].Index? && j.Array? {
        NullStays(p[1..], v);
        assert Get(after, p[0]) == Some(Null);
      }
    }
  }

  /** Another first step leads where it led, or to a null that pads an array. */
  lemma OtherSteps(j: Value, p: Path, seg: Segment, v: Value)
    requires p != [] && seg != p[0]
    ensures var after := SetSegments(j, p, v);
            Get(after, seg) == Get(j, seg) || (Get(j, seg) == None && Get(after, seg) == Some(Null))
  {
  }

  // ---- a set that fails and changes the document ----

  /** `a[1].b` in a document whose `a` is an empty array: two nulls, and no value. */
  lemma FailedSetPads(v: Value)
    ensures var j := Object(map["a" := Array([])]);
            SetJsonPath(j, "a[1].b", v) == Object(map["a" := Array([Null, Null])])
  {
    var p := [Key("a"), Index(1), Key("b")];
    var j := Object(map["a" := Array([])]);
    TextOfPads();
    ParseInvertsPath(p);
    assert p[1..] == [Index(1), Key("b")] && p[1..][1..] == [Key("b")];
    SetStepsOn(j, p, v);
    NullStays([Key("b")], v);
    assert SetSegments(Array([]), [Index(1), Key("b")], v) == Array([Null, Null]);
    assert j.fields["a" := Array([Null, Null])] == map["a" := Array([Null, Null])];
  }

  lemma TextOfPads()
    ensures PathText([Key("a"), Index(1), Key("b")]) == "a[1].b"
    ensures PlainPath([Key("a"), Index(1), Key("b")])
  {
    var p := [Key("a"), Index(1), Key("b")];
    assert p[1..] == [Index(1), Key("b")];
    TailTextAppend([], Index(1));
    TailTextAppend([Index(1)], Key("b"));
    assert [] + [Index(1)] == [Index(1)] && [Index(1)] + [Key("b")] == [Index(1), Key("b")];
    assert PrintNat(1) == "1";
  }
}
