/** `mergeEnv`: overriding an environment given as a list of KEY=VALUE entries (host/runtime/pty_backend.go). */
module EnvMerge {
  import opened Wrappers
  import opened Sequences

  /** The position of the first '=', or the length. */
  function EqAt(kv: string): (k: nat)
    ensures k <= |kv| && (forall i :: 0 <= i < k ==> kv[i] != '=') && (k < |kv| ==> kv[k] == '=')
  {
    if kv == "" || kv[0] == '=' then 0 else 1 + EqAt(kv[1..])
  }

  /** The key of a well-formed entry. */
  function KeyOf(kv: string): Option<string> {
    if EqAt(kv) == |kv| then None else Some(kv[..EqAt(kv)])
  }

  function ValueOf(kv: string): string
    requires KeyOf(kv).Some?
  {
    kv[EqAt(kv) + 1..]
  }

  function Entry(key: string, value: string): string {
    key + "=" + value
  }

  lemma EntryParts(key: string, value: string)
    requires '=' !in key
    ensures KeyOf(Entry(key, value)) == Some(key) && ValueOf(Entry(key, value)) == value
  {
    var kv := Entry(key, value);
    forall i | 0 <= i < |key| ensures kv[i] != '=' { assert kv[i] == key[i]; }
    assert kv[|key|] == '=';
    assert EqAt(kv) == |key|;
    assert kv[..|key|] == key && kv[|key| + 1..] == value;
  }

  // ----------------------------------------------------------------- the merge

  function MergeBase(base: seq<string>, overrides: map<string, string>, seen: set<string>): seq<string> {
    if base == [] then []
    else
      var key := KeyOf(base[0]);
      if key.None? then [base[0]] + MergeBase(base[1..], overrides, seen)
      else if key.value in seen then MergeBase(base[1..], overrides, seen)
      else [if key.value in overrides then Entry(key.value, overrides[key.value]) else base[0]]
           + MergeBase(base[1..], overrides, seen + {key.value})
  }

  function Keys(env: seq<string>): set<string> {
    set i | 0 <= i < |env| && KeyOf(env[i]).Some? :: KeyOf(env[i]).value
  }

  function Extras(keys: seq<string>, overrides: map<string, string>): seq<string>
    requires forall i :: 0 <= i < |keys| ==> keys[i] in overrides
  {
    seq(|keys|, i requires 0 <= i < |keys| => Entry(keys[i], overrides[keys[i]]))
  }

  /** Byte order on strings. */
  predicate Less(a: string, b: string) {
    b != "" && (a == "" || a[0] < b[0] || (a[0] == b[0] && Less(a[1..], b[1..])))
  }

  predicate Sorted(keys: seq<string>) {
    forall i, j :: 0 <= i < j < |keys| ==> Less(keys[i], keys[j])
  }

  function Members(keys: seq<string>): set<string> {
    set k | k in keys
  }

  /** The override keys the base does not have, in order. */
  ghost predicate ExtraKeys(keys: seq<string>, base: seq<string>, overrides: map<string, string>) {
    Sorted(keys) && Members(keys) == overrides.Keys - Keys(base)
  }

  // ------------------------------------------------------------------- lookup

  /** `getenv`: the value of the first entry with the key. */
  function Lookup(env: seq<string>, key: string): Option<string> {
    if env == [] then None
    else if KeyOf(env[0]) == Some(key) then Some(ValueOf(env[0]))
    else Lookup(env[1..], key)
  }

  function Count(env: seq<string>, key: string): nat {
    if env == [] then 0 else (if KeyOf(env[0]) == Some(key) then 1 else 0) + Count(env[1..], key)
  }

  /** One place in an environment: a key, or an entry without one. */
  datatype Slot = Keyed(key: string) | Malformed(entry: string)

  /** Malformed entries and first appearances of keys, in order. */
  function Outline(env: seq<string>, seen: set<string>): seq<Slot> {
    if env == [] then []
    else
      var key := KeyOf(env[0]);
      if key.None? then [Malformed(env[0])] + Outline(env[1..], seen)
      else if key.value in seen then Outline(env[1..], seen)
      else [Keyed(key.value)] + Outline(env[1..], seen + {key.value})
  }

  function Slots(keys: seq<string>): seq<Slot> {
    seq(|keys|, i requires 0 <= i < |keys| => Keyed(keys[i]))
  }

  ghost predicate PlainKeys(overrides: map<string, string>) {
    forall k :: k in overrides ==> '=' !in k
  }

  lemma KeyHasNoEq(kv: string)
    ensures KeyOf(kv).Some? ==> '=' !in KeyOf(kv).value
  {
  }

  /** What the base part of the merge does to one key. */
  lemma {:induction false} MergeBaseLookup(base: seq<string>, overrides: map<string, string>, seen: set<string>, key: string)
    ensures var out := MergeBase(base, overrides, seen);
            && Count(out, key) <= 1 && (key in seen ==> Count(out, key) == 0)
            && (key !in seen ==> (Count(out, key) == 1 <==> Lookup(base, key).Some?))
            && (key !in seen && Lookup(base, key).Some? ==>
                  Lookup(out, key) == if key in overrides then Some(overrides[key]) else Lookup(base, key))
            && (Count(out, key) == 0 ==> Lookup(out, key).None?)
  {
    if base != [] {
      var own := KeyOf(base[0]);
      if own.None? || own.value in seen {
        MergeBaseLookup(base[1..], overrides, seen, key);
        var rest := MergeBase(base[1..], overrides, seen);
        if own.None? { assert ([base[0]] + rest)[1..] == rest; }
      } else {
        MergeBaseLookup(base[1..], overrides, seen + {own.value}, key);
        KeyHasNoEq(base[0]);
        if own.value in overrides { EntryParts(own.value, overrides[own.value]); }
        var rest := MergeBase(base[1..], overrides, seen + {own.value});
        var first := if own.value in overrides then Entry(own.value, overrides[own.value]) else base[0];
        assert ([first] + rest)[1..] == rest;
      }
    }
  }

  /** The entry the base's next one becomes, if it becomes one. */
  function Emit(kv: string, overrides: map<string, string>, seen: set<string>): seq<string> {
    var key := KeyOf(kv);
    if key.None? then [kv] else if key.value in seen then []
    else [if key.value in overrides then Entry(key.value, overrides[key.value]) else kv]
  }

  function See(kv: string, seen: set<string>): set<string> {
    if KeyOf(kv).None? then seen else seen + {KeyOf(kv).value}
  }

  lemma OutlineCons(kv: string, rest: seq<string>, seen: set<string>)
    ensures Outline([kv] + rest, seen) ==
            var key := KeyOf(kv);
            if key.None? then [Malformed(kv)] + Outline(rest, seen)
            else if key.value in seen then Outline(rest, seen)
            else [Keyed(key.value)] + Outline(rest, seen + {key.value})
  {
    assert ([kv] + rest)[1..] == rest;
  }

  lemma {:induction false} OutlineExtras(keys: seq<string>, overrides: map<string, string>, seen: set<string>)
    requires Sorted(keys) && PlainKeys(overrides) && forall i :: 0 <= i < |keys| ==> keys[i] in overrides
    requires forall k :: k in keys ==> k !in seen
    ensures Outline(Extras(keys, overrides), seen) == Slots(keys)
  {
    if keys != [] {
      var rest := keys[1..];
      forall k | k in rest ensures k !in seen + {keys[0]} { FirstOnce(keys, k); }
      OutlineExtras(rest, overrides, seen + {keys[0]});
      EntryParts(keys[0], overrides[keys[0]]);
      assert Extras(keys, overrides) == [Entry(keys[0], overrides[keys[0]])] + Extras(rest, overrides);
      OutlineCons(Entry(keys[0], overrides[keys[0]]), Extras(rest, overrides), seen);
      assert Slots(keys) == [Keyed(keys[0])] + Slots(rest);
    }
  }

  /** One entry of the base that stays, with what the rest becomes. */
  lemma OutlineEntry(kv: string, rest: seq<string>, seen: set<string>, tail: seq<Slot>, slots: seq<Slot>)
    requires KeyOf(kv).None? || KeyOf(kv).value !in seen
    requires Outline(rest, See(kv, seen)) == tail + slots
    ensures Outline([kv] + rest, seen) ==
            [if KeyOf(kv).None? then Malformed(kv) else Keyed(KeyOf(kv).value)] + tail + slots
  {
    OutlineCons(kv, rest, seen);
    Assoc([if KeyOf(kv).None? then Malformed(kv) else Keyed(KeyOf(kv).value)], tail, slots);
  }

  /** An entry keeps its key when it is overridden. */
  lemma EmitKey(kv: string, overrides: map<string, string>, seen: set<string>)
    requires KeyOf(kv).None? || KeyOf(kv).value !in seen
    ensures |Emit(kv, overrides, seen)| == 1
    ensures var out := Emit(kv, overrides, seen)[0]; KeyOf(out) == KeyOf(kv) && (KeyOf(kv).None? ==> out == kv)
  {
    KeyHasNoEq(kv);
    if KeyOf(kv).Some? && KeyOf(kv).value in overrides { EntryParts(KeyOf(kv).value, overrides[KeyOf(kv).value]); }
  }

  lemma MergeBaseHead(base: seq<string>, overrides: map<string, string>, seen: set<string>)
    requires base != []
    ensures MergeBase(base, overrides, seen) ==
            Emit(base[0], overrides, seen) + MergeBase(base[1..], overrides, See(base[0], seen))
  {
    assert KeyOf(base[0]).Some? && KeyOf(base[0]).value in seen ==> See(base[0], seen) == seen;
  }

  /** The base's entries keep their places, malformed ones among the others, and the added keys follow. */
  lemma {:induction false} MergeOutline(
    base: seq<string>, overrides: map<string, string>, seen: set<string>, extra: seq<string>)
    requires Sorted(extra) && PlainKeys(overrides) && forall i :: 0 <= i < |extra| ==> extra[i] in overrides
    requires forall k :: k in extra ==> k !in seen && k !in Keys(base)
    ensures Outline(MergeBase(base, overrides, seen) + Extras(extra, overrides), seen) ==
            Outline(base, seen) + Slots(extra)
  {
    var added := Extras(extra, overrides);
    if base == [] {
      OutlineExtras(extra, overrides, seen);
      assert [] + added == added && [] + Slots(extra) == Slots(extra);
    } else {
      var kv, rest := base[0], MergeBase(base[1..], overrides, See(base[0], seen));
      RestKeys(base);
      MergeOutline(base[1..], overrides, See(kv, seen), extra);
      MergeBaseHead(base, overrides, seen);
      if KeyOf(kv).Some? && KeyOf(kv).value in seen {
        assert See(kv, seen) == seen && [] + rest == rest;
      } else {
        var out := Emit(kv, overrides, seen)[0];
        EmitKey(kv, overrides, seen);
        Assoc([out], rest, added);
        OutlineEntry(out, rest + added, seen, Outline(base[1..], See(kv, seen)), Slots(extra));
      }
    }
  }

  lemma RestKeys(base: seq<string>)
    requires base != []
    ensures Keys(base[1..]) <= Keys(base)
    ensures KeyOf(base[0]).Some? ==> KeyOf(base[0]).value in Keys(base)
  {
    forall k | k in Keys(base[1..]) ensures k in Keys(base) {
      var i :| 0 <= i < |base[1..]| && KeyOf(base[1..][i]) == Some(k);
      assert base[i + 1] == base[1..][i];
    }
  }

  lemma {:induction false} LookupConcat(a: seq<string>, b: seq<string>, key: string)
    ensures Count(a + b, key) == Count(a, key) + Count(b, key)
    ensures Lookup(a + b, key) == if Lookup(a, key).Some? then Lookup(a, key) else Lookup(b, key)
    ensures Lookup(a, key).Some? <==> Count(a, key) > 0
  {
    if a == [] {
      assert a + b == b;
    } else {
      assert (a + b)[1..] == a[1..] + b;
      LookupConcat(a[1..], b, key);
    }
  }

  lemma {:induction false} LookupKeys(env: seq<string>, key: string)
    ensures Lookup(env, key).Some? <==> key in Keys(env)
  {
    if env != [] {
      LookupKeys(env[1..], key);
      if key in Keys(env[1..]) {
        var i :| 0 <= i < |env[1..]| && KeyOf(env[1..][i]) == Some(key);
        assert env[i + 1] == env[1..][i];
      }
      if key in Keys(env) {
        var i :| 0 <= i < |env| && KeyOf(env[i]) == Some(key);
        assert i > 0 ==> env[1..][i - 1] == env[i];
      }
    }
  }

  /** Strictly sorted keys are each there once. */
  lemma {:induction false} ExtrasLookup(keys: seq<string>, overrides: map<string, string>, key: string)
    requires Sorted(keys) && PlainKeys(overrides) && forall i :: 0 <= i < |keys| ==> keys[i] in overrides
    ensures var out := Extras(keys, overrides);
            && Count(out, key) == (if key in keys then 1 else 0)
            && Lookup(out, key) == (if key in keys then Some(overrides[key]) else None)
  {
    if keys != [] {
      var rest := keys[1..];
      ExtrasLookup(rest, overrides, key);
      EntryParts(keys[0], overrides[keys[0]]);
      assert Extras(keys, overrides)[1..] == Extras(rest, overrides);
      FirstOnce(keys, key);
    }
  }

  lemma {:induction false} LessIrreflexive(a: string)
    ensures !Less(a, a)
  {
    if a != "" { LessIrreflexive(a[1..]); }
  }

  lemma {:induction false} LessTransitive(a: string, b: string, c: string)
    requires Less(a, b) && Less(b, c)
    ensures Less(a, c)
  {
    if a != "" && a[0] == b[0] && b[0] == c[0] { LessTransitive(a[1..], b[1..], c[1..]); }
  }

  lemma {:induction false} LessTotal(a: string, b: string)
    ensures a == b || Less(a, b) || Less(b, a)
  {
    if a != "" && b != "" && a[0] == b[0] {
      LessTotal(a[1..], b[1..]);
      if a[1..] == b[1..] { assert a == [a[0]] + a[1..] && b == [b[0]] + b[1..]; }
    }
  }

  /**
   The merge refines lookup: each key appears at most once, looking it up gives the
   override if there is one and the first base value otherwise; malformed entries
   and the first appearances of base keys keep their order among each other.
   */
  lemma MergeRefinesLookup(base: seq<string>, overrides: map<string, string>, extra: seq<string>, key: string)
    requires PlainKeys(overrides) && ExtraKeys(extra, base, overrides)
    requires forall i :: 0 <= i < |extra| ==> extra[i] in overrides
    ensures var out := MergeBase(base, overrides, {}) + Extras(extra, overrides);
            && Count(out, key) <= 1
            && Lookup(out, key) == (if key in overrides then Some(overrides[key]) else Lookup(base, key))
            && Outline(out, {}) == Outline(base, {}) + Slots(extra)
  {
    MergeBaseLookup(base, overrides, {}, key);
    forall k | k in extra ensures k !in Keys(base) { assert k in Members(extra); }
    MergeOutline(base, overrides, {}, extra);
    ExtrasLookup(extra, overrides, key);
    LookupConcat(MergeBase(base, overrides, {}), Extras(extra, overrides), key);
    LookupKeys(base, key);
    assert key in Members(extra) <==> key in overrides.Keys - Keys(base);
  }

  /** The order of the added keys is fixed, whatever order the map was walked in. */
  lemma {:induction false} SortedUnique(a: seq<string>, b: seq<string>)
    requires Sorted(a) && Sorted(b) && Members(a) == Members(b)
    ensures a == b
    decreases |a|
  {
    MembersEmpty(a);
    MembersEmpty(b);
    if a != [] {
      assert a[0] in Members(b);
      var j :| 0 <= j < |b| && b[j] == a[0];
      assert b[0] in Members(a);
      var i :| 0 <= i < |a| && a[i] == b[0];
      SmallestFirst(a, b, i, j);
      SameRest(a, b);
      SortedUnique(a[1..], b[1..]);
      assert a == [a[0]] + a[1..] && b == [b[0]] + b[1..];
    }
  }

  lemma MembersEmpty(a: seq<string>)
    ensures Members(a) == {} <==> a == []
  {
    if a != [] { assert a[0] in Members(a); }
  }

  lemma SmallestFirst(a: seq<string>, b: seq<string>, i: nat, j: nat)
    requires Sorted(a) && Sorted(b) && i < |a| && j < |b| && b[j] == a[0] && a[i] == b[0]
    ensures a[0] == b[0]
  {
    if i > 0 && j > 0 {
      assert Less(a[0], a[i]) && Less(b[0], b[j]);
      LessTransitive(a[0], b[0], a[0]);
      LessIrreflexive(a[0]);
      assert false;
    }
  }

  lemma SameRest(a: seq<string>, b: seq<string>)
    requires a != [] && b != [] && a[0] == b[0] && Sorted(a) && Sorted(b) && Members(a) == Members(b)
    ensures Members(a[1..]) == Members(b[1..])
  {
    forall k ensures k in a[1..] <==> k in b[1..] {
      assert k in a <==> k in b by { assert k in Members(a) <==> k in Members(b); }
      FirstOnce(a, k);
      FirstOnce(b, k);
    }
  }

  lemma FirstOnce(a: seq<string>, k: string)
    requires a != [] && Sorted(a)
    ensures k in a[1..] <==> k in a && k != a[0]
  {
    LessIrreflexive(a[0]);
    if k in a[1..] {
      var i :| 0 <= i < |a[1..]| && a[1..][i] == k;
      assert Less(a[0], a[i + 1]);
    }
    assert a == [a[0]] + a[1..];
  }

  lemma {:induction false} EqNeverFound(env: seq<string>, key: string)
    requires '=' in key
    ensures Lookup(env, key).None?
  {
    if env != [] {
      KeyHasNoEq(env[0]);
      EqNeverFound(env[1..], key);
    }
  }

  /** What a merged environment owes a key. */
  predicate Resolves(out: seq<string>, base: seq<string>, overrides: map<string, string>, key: string) {
    Lookup(out, key) == if key in overrides then Some(overrides[key]) else Lookup(base, key)
  }

  ghost predicate AllResolve(out: seq<string>, base: seq<string>, overrides: map<string, string>) {
    forall key :: Resolves(out, base, overrides, key)
  }

  /** Every key resolves iff no override key has '=' in it: one that has cannot be looked up again. */
  lemma AllResolveIff(base: seq<string>, overrides: map<string, string>, extra: seq<string>)
    requires ExtraKeys(extra, base, overrides) && forall i :: 0 <= i < |extra| ==> extra[i] in overrides
    ensures AllResolve(MergeBase(base, overrides, {}) + Extras(extra, overrides), base, overrides) <==>
            PlainKeys(overrides)
  {
    var out := MergeBase(base, overrides, {}) + Extras(extra, overrides);
    if PlainKeys(overrides) {
      forall key ensures Resolves(out, base, overrides, key) { MergeRefinesLookup(base, overrides, extra, key); }
    } else {
      var k :| k in overrides && '=' in k;
      EqNeverFound(out, k);
      assert !Resolves(out, base, overrides, k);
    }
  }

  // ---------------------------------------------------------------- as it runs

  /** One key put in its place; `sort.Strings` on keys that are all different. */
  method InsertSorted(keys: seq<string>, key: string) returns (out: seq<string>)
    requires Sorted(keys) && key !in keys
    ensures Sorted(out) && Members(out) == Members(keys) + {key}
  {
    var i := 0;
    while i < |keys| && Less(keys[i], key)
      invariant i <= |keys| && forall j :: 0 <= j < i ==> Less(keys[j], key)
    {
      i := i + 1;
    }
    out := keys[..i] + [key] + keys[i..];
    AfterInsert(keys, key, i);
  }

  lemma AfterInsert(keys: seq<string>, key: string, i: nat)
    requires Sorted(keys) && key !in keys && i <= |keys|
    requires forall j :: 0 <= j < i ==> Less(keys[j], key)
    requires i < |keys| ==> !Less(keys[i], key)
    ensures var out := keys[..i] + [key] + keys[i..]; Sorted(out) && Members(out) == Members(keys) + {key}
  {
    var out := keys[..i] + [key] + keys[i..];
    forall j | i <= j < |keys| ensures Less(key, keys[j]) {
      LessTotal(key, keys[i]);
      if j > i { LessTransitive(key, keys[i], keys[j]); }
    }
    forall a, b | 0 <= a < b < |out| ensures Less(out[a], out[b]) {
      if a < i && b > i { assert out[b] == keys[b - 1]; }
      if a > i { assert out[a] == keys[a - 1] && out[b] == keys[b - 1]; }
    }
    forall k ensures k in out <==> k in keys || k == key {
      assert keys == keys[..i] + keys[i..];
    }
  }

  /** `mergeEnv`. */
  method MergeEnv(base: seq<string>, overrides: map<string, string>) returns (out: seq<string>, ghost extra: seq<string>)
    ensures overrides == map[] ==> out == base
    ensures overrides != map[] ==>
              && ExtraKeys(extra, base, overrides) && (forall i :: 0 <= i < |extra| ==> extra[i] in overrides)
              && out == MergeBase(base, overrides, {}) + Extras(extra, overrides)
  {
    extra := [];
    if overrides == map[] { return base, []; }
    var seen: set<string>;
    out, seen := OverBase(base, overrides);
    var keys := ExtraSorted(overrides, seen);
    extra := keys;
    forall i | 0 <= i < |keys| ensures keys[i] in overrides { assert keys[i] in Members(keys); }
    var merged := out;
    for i := 0 to |keys|
      invariant out == merged + Extras(keys, overrides)[..i]
    {
      out := out + [keys[i] + "=" + overrides[keys[i]]];
    }
    assert Extras(keys, overrides)[..|keys|] == Extras(keys, overrides);
  }

  /** What is out so far, and what the rest of the base will add. */
  ghost predicate MergedTo(base: seq<string>, overrides: map<string, string>, i: nat, out: seq<string>, seen: set<string>) {
    i <= |base| && out + MergeBase(base[i..], overrides, seen) == MergeBase(base, overrides, {})
  }

  lemma MergeNext(base: seq<string>, overrides: map<string, string>, i: nat, out: seq<string>, seen: set<string>)
    requires MergedTo(base, overrides, i, out, seen) && i < |base|
    ensures MergedTo(base, overrides, i + 1, out + Emit(base[i], overrides, seen), See(base[i], seen))
  {
    var emit, rest := Emit(base[i], overrides, seen), MergeBase(base[i + 1..], overrides, See(base[i], seen));
    assert base[i..][1..] == base[i + 1..];
    assert KeyOf(base[i]).Some? && KeyOf(base[i]).value in seen ==> See(base[i], seen) == seen;
    assert MergeBase(base[i..], overrides, seen) == emit + rest;
    assert out + (emit + rest) == out + emit + rest;
  }

  /** The loop over the base. */
  method OverBase(base: seq<string>, overrides: map<string, string>) returns (out: seq<string>, seen: set<string>)
    ensures out == MergeBase(base, overrides, {}) && seen == Keys(base)
  {
    out, seen := [], {};
    assert base[0..] == base && [] + MergeBase(base, overrides, {}) == MergeBase(base, overrides, {});
    for i := 0 to |base|
      invariant MergedTo(base, overrides, i, out, seen) && seen == Keys(base[..i])
    {
      var kv := base[i];
      MergeNext(base, overrides, i, out, seen);
      KeysSnoc(base[..i], kv);
      assert base[..i + 1] == base[..i] + [kv];
      if EqAt(kv) == |kv| {
        out := out + [kv];
      } else {
        var key := kv[..EqAt(kv)];
        if key in seen {
          assert seen + {key} == seen && out + [] == out;
        } else {
          out := out + [if key in overrides then key + "=" + overrides[key] else kv];
          seen := seen + {key};
        }
      }
    }
    assert base[..|base|] == base && base[|base|..] == [] && out + [] == out;
  }

  lemma KeysSnoc(env: seq<string>, kv: string)
    ensures Keys(env + [kv]) == Keys(env) + (if KeyOf(kv).Some? then {KeyOf(kv).value} else {})
  {
    var all := env + [kv];
    assert all[|env|] == kv;
    forall k ensures k in Keys(all) <==> k in Keys(env) || KeyOf(kv) == Some(k) {
      if k in Keys(env) {
        var i :| 0 <= i < |env| && KeyOf(env[i]) == Some(k);
        assert all[i] == env[i];
      }
    }
  }

  /** The remaining override keys, walked in any order and sorted. */
  method ExtraSorted(overrides: map<string, string>, seen: set<string>) returns (keys: seq<string>)
    ensures Sorted(keys) && Members(keys) == overrides.Keys - seen
  {
    keys := [];
    var left := overrides.Keys;
    while left != {}
      invariant left <= overrides.Keys && Sorted(keys) && Members(keys) == overrides.Keys - seen - left
      decreases left
    {
      var k :| k in left;
      left := left - {k};
      if k !in seen {
        assert k !in keys by { assert k !in Members(keys); }
        keys := InsertSorted(keys, k);
      }
    }
  }
}
