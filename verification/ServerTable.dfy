/** The phases of admission as they run, in place on the table of servers (clients/goclient/clientconfig/config.go). */
module ServerTable {
  import opened Wrappers
  import opened ClientConfig

  /** The members of a group: every position below `n` with that key, in order. */
  ghost predicate Group(lib: Library, what: Sharing, ss: seq<Server>, n: nat, value: string, members: seq<nat>)
    requires n <= |ss|
  {
    && (forall m :: 0 <= m < |members| ==> members[m] < n && Key(lib, what, ss[members[m]]) == Some(value))
    && (forall i :: 0 <= i < n && Key(lib, what, ss[i]) == Some(value) ==> i in members)
    && (forall m, l :: 0 <= m < l < |members| ==> members[m] < members[l])
  }

  ghost predicate Grouped(lib: Library, what: Sharing, ss: seq<Server>, n: nat, groups: map<string, seq<nat>>)
    requires n <= |ss|
  {
    && (forall value :: value in groups ==> Group(lib, what, ss, n, value, groups[value]))
    && (forall i :: 0 <= i < n && Key(lib, what, ss[i]).Some? ==> Key(lib, what, ss[i]).value in groups)
  }

  /** The groups with entry `n` taken in. */
  function WithEntry(key: Option<string>, n: nat, groups: map<string, seq<nat>>): map<string, seq<nat>> {
    if key.None? then groups
    else groups[key.value := (if key.value in groups then groups[key.value] else []) + [n]]
  }

  lemma GroupedNext(lib: Library, what: Sharing, ss: seq<Server>, n: nat, groups: map<string, seq<nat>>)
    requires n < |ss| && Grouped(lib, what, ss, n, groups)
    ensures Grouped(lib, what, ss, n + 1, WithEntry(Key(lib, what, ss[n]), n, groups))
  {
    var key := Key(lib, what, ss[n]);
    var after := WithEntry(key, n, groups);
    forall value | value in after ensures Group(lib, what, ss, n + 1, value, after[value]) {
      if key == Some(value) {
        GroupGrows(lib, what, ss, n, value, if value in groups then groups[value] else []);
      } else {
        GroupStays(lib, what, ss, n, value, groups[value]);
      }
    }
  }

  /** The first loop of `markCollisions`. */
  method GroupByKey(lib: Library, what: Sharing, a: array<Server>) returns (groups: map<string, seq<nat>>)
    ensures Grouped(lib, what, a[..], a.Length, groups)
  {
    groups := map[];
    for i := 0 to a.Length
      invariant Grouped(lib, what, a[..], i, groups)
    {
      GroupedNext(lib, what, a[..], i, groups);
      groups := WithEntry(Key(lib, what, a[i]), i, groups);
    }
  }

  lemma GroupGrows(lib: Library, what: Sharing, ss: seq<Server>, n: nat, value: string, members: seq<nat>)
    requires n < |ss| && Key(lib, what, ss[n]) == Some(value) && Group(lib, what, ss, n, value, members)
    ensures Group(lib, what, ss, n + 1, value, members + [n])
  {
    var all := members + [n];
    forall i | 0 <= i < n + 1 && Key(lib, what, ss[i]) == Some(value) ensures i in all {
      if i == n { assert all[|members|] == n; }
    }
  }

  lemma GroupStays(lib: Library, what: Sharing, ss: seq<Server>, n: nat, value: string, members: seq<nat>)
    requires n < |ss| && Key(lib, what, ss[n]) != Some(value) && Group(lib, what, ss, n, value, members)
    ensures Group(lib, what, ss, n + 1, value, members)
  {
  }

  /** A group of two or more is a collision of each of its members, and of nothing else. */
  lemma GroupCollides(lib: Library, what: Sharing, ss: seq<Server>, groups: map<string, seq<nat>>, i: nat)
    requires Grouped(lib, what, ss, |ss|, groups) && i < |ss| && Key(lib, what, ss[i]).Some?
    ensures var value := Key(lib, what, ss[i]).value;
            value in groups && i in groups[value] && (|groups[value]| >= 2 <==> Collides(lib, what, ss, i))
  {
    var value := Key(lib, what, ss[i]).value;
    assert Group(lib, what, ss, |ss|, value, groups[value]);
    var members := groups[value];
    if |members| >= 2 {
      var j := if members[0] == i then members[1] else members[0];
      assert members[0] < members[1] && j != i && Key(lib, what, ss[j]) == Some(value);
    }
    if Collides(lib, what, ss, i) {
      var j :| 0 <= j < |ss| && j != i && Key(lib, what, ss[j]) == Key(lib, what, ss[i]);
      assert i in members && j in members;
    }
  }

  /** The entry after marking the groups whose keys are in `done`. */
  predicate MarkedSoFar(lib: Library, what: Sharing, ss: seq<Server>, done: set<string>, i: nat, now: Server)
    requires i < |ss|
  {
    var key := Key(lib, what, ss[i]);
    if key.Some? && key.value in done && Collides(lib, what, ss, i) then now == ss[i].(violation := Some(RuleOf(what)))
    else now == ss[i]
  }

  /** Marks one group; it shares no entry with another. */
  method MarkGroup(a: array<Server>, members: seq<nat>, rule: Rule)
    requires forall m :: 0 <= m < |members| ==> members[m] < a.Length
    modifies a
    ensures forall i :: 0 <= i < a.Length ==>
              a[i] == if i in members then old(a[i]).(violation := Some(rule)) else old(a[i])
  {
    for m := 0 to |members|
      invariant forall i :: 0 <= i < a.Length ==>
                  a[i] == if i in members[..m] then old(a[i]).(violation := Some(rule)) else old(a[i])
    {
      a[members[m]] := a[members[m]].(violation := Some(rule));
      assert members[..m + 1] == members[..m] + [members[m]];
    }
    assert members[..|members|] == members;
  }

  /** `markCollisions`, going through the groups in any order. */
  method MarkCollisionsIn(lib: Library, what: Sharing, a: array<Server>)
    modifies a
    ensures a[..] == MarkCollisions(lib, what, old(a[..]))
  {
    ghost var was := a[..];
    var groups := GroupByKey(lib, what, a);
    var rest := groups.Keys;
    while rest != {}
      invariant rest <= groups.Keys
      invariant forall i :: 0 <= i < a.Length ==> MarkedSoFar(lib, what, was, groups.Keys - rest, i, a[i])
      decreases rest
    {
      var value :| value in rest;
      var members := groups[value];
      assert Group(lib, what, was, |was|, value, members);
      ghost var before := a[..];
      if |members| >= 2 { MarkGroup(a, members, RuleOf(what)); }
      forall i | 0 <= i < a.Length ensures MarkedSoFar(lib, what, was, groups.Keys - (rest - {value}), i, a[i]) {
        assert MarkedSoFar(lib, what, was, groups.Keys - rest, i, before[i]);
        if Key(lib, what, was[i]).Some? { GroupCollides(lib, what, was, groups, i); }
      }
      rest := rest - {value};
    }
    forall i | 0 <= i < a.Length ensures a[i] == MarkCollisions(lib, what, was)[i] {
      assert MarkedSoFar(lib, what, was, groups.Keys - rest, i, a[i]);
      if Key(lib, what, was[i]).Some? { GroupCollides(lib, what, was, groups, i); }
    }
  }

  /** The first loop of `markDefaultExecution`. */
  method FindMarkers(a: array<Server>) returns (marked: seq<nat>)
    ensures forall m :: 0 <= m < |marked| ==> marked[m] < a.Length && Marker(a[marked[m]])
    ensures forall m, l :: 0 <= m < l < |marked| ==> marked[m] < marked[l]
    ensures forall i :: 0 <= i < a.Length && Marker(a[i]) ==> i in marked
  {
    marked := [];
    for i := 0 to a.Length
      invariant forall m :: 0 <= m < |marked| ==> marked[m] < i && Marker(a[marked[m]])
      invariant forall m, l :: 0 <= m < l < |marked| ==> marked[m] < marked[l]
      invariant forall j :: 0 <= j < i && Marker(a[j]) ==> j in marked
    {
      if Marker(a[i]) {
        assert (marked + [i])[|marked|] == i;
        marked := marked + [i];
      }
    }
  }

  lemma MarkerCount(ss: seq<Server>, marked: seq<nat>)
    requires forall m :: 0 <= m < |marked| ==> marked[m] < |ss| && Marker(ss[marked[m]])
    requires forall m, l :: 0 <= m < l < |marked| ==> marked[m] < marked[l]
    requires forall i :: 0 <= i < |ss| && Marker(ss[i]) ==> i in marked
    ensures AnyMarker(ss) <==> |marked| >= 1
    ensures ManyMarkers(ss) <==> |marked| >= 2
  {
    if |marked| >= 1 { assert Marker(ss[marked[0]]); }
    if |marked| >= 2 { assert marked[0] < marked[1] && Marker(ss[marked[1]]); }
    if ManyMarkers(ss) {
      var i, j :| 0 <= i < j < |ss| && Marker(ss[i]) && Marker(ss[j]);
      assert i in marked && j in marked;
    }
  }

  /** The last loop of `markDefaultExecution`. */
  method FallBack(a: array<Server>)
    modifies a
    ensures a[..] == Fallback(old(a[..]))
  {
    ghost var was := a[..];
    var i := 0;
    while i < a.Length && !Usable(a[i])
      invariant i <= a.Length && a[..] == was
      invariant forall j :: 0 <= j < i ==> !Usable(was[j])
    {
      i := i + 1;
    }
    if i < a.Length {
      a[i] := a[i].(defaultExecution := true);
      assert FirstUsable(was, i);
    }
    forall j | 0 <= j < a.Length ensures a[j] == Fallback(was)[j] {
      assert j > i ==> Usable(was[i]);
    }
  }

  /** `markDefaultExecution`. */
  method MarkDefaultIn(a: array<Server>)
    modifies a
    ensures a[..] == MarkDefault(old(a[..]))
  {
    ghost var was := a[..];
    var marked := FindMarkers(a);
    MarkerCount(was, marked);
    if |marked| > 1 {
      MarkGroup(a, marked, AtMostOneDefault);
      assert a[..] == DropMarkers(was);
    }
    if |marked| == 1 {
      assert a[..] == DropMarkers(was);
      return;
    }
    assert a[..] == DropMarkers(was);
    FallBack(a);
  }

  /** `admitServers`. */
  method Admit(lib: Library, es: seq<Entry>) returns (a: array<Server>)
    ensures a[..] == AdmitServers(lib, es)
  {
    a := new Server[|es|](i requires 0 <= i < |es| => AdmitEntry(lib, es[i]));
    assert a[..] == AdmitAll(lib, es);
    MarkCollisionsIn(lib, SameUrl, a);
    MarkCollisionsIn(lib, SameName, a);
    MarkDefaultIn(a);
  }
}
