/**
 Admission of the entries of servers.json: rules decidable from one entry alone,
 then collisions between entries that are otherwise sound, then the default
 execution server (clients/goclient/clientconfig/config.go). An entry's index is
 its position.
 */
module ClientConfig {
  import opened Wrappers

  datatype Rule =
    | DisplayNameRequired | DisplayNameCharset | DisplayNameUnique | EntryFieldTypes | UnknownEntryField
    | UrlScheme | UrlBareAuthority | DuplicateUrl | AuthVariant | AtMostOneDefault | DefaultMustBeEnabled

  datatype Auth = Auth(mode: string, token: string)

  /** One entry of the document, decoded or not; `salvaged` is the name recovered from one that is not. */
  datatype Entry =
    | Undecodable(rule: Rule, salvaged: string)
    | Decoded(displayName: string, enabled: bool, defaultExecution: bool, url: string, auth: Auth)

  datatype Server = Server(
    id: string, displayName: string, enabled: bool, defaultExecution: bool, url: string, auth: Auth,
    violation: Option<Rule>)

  /** `strings.TrimSpace`, `canonicalURL` and `ServerID`. */
  datatype Library = Library(trim: string -> string, canonical: string -> Result<string, Rule>, serverId: string -> string)

  /** `ServerID` is a hash written out, never empty. */
  ghost predicate Proper(lib: Library) {
    forall url :: lib.serverId(url) != ""
  }

  predicate Usable(s: Server) {
    s.violation.None? && s.enabled
  }

  // ------------------------------------------------------------- one entry alone

  /** `checkDisplayName`. */
  function CheckDisplayName(lib: Library, name: string): Option<Rule> {
    var trimmed := lib.trim(name);
    if trimmed == "" then Some(DisplayNameRequired)
    else if (exists i :: 0 <= i < |trimmed| && (trimmed[i] as int <= 0x1F || trimmed[i] as int == 0x7F)) || trimmed[0] == '-'
    then Some(DisplayNameCharset)
    else None
  }

  /** `checkAuth`. */
  function CheckAuth(lib: Library, auth: Auth): Option<Rule> {
    if auth.mode == "none" then if auth.token != "" then Some(AuthVariant) else None
    else if auth.mode == "bearer" then if lib.trim(auth.token) == "" then Some(AuthVariant) else None
    else Some(AuthVariant)
  }

  /** `admitEntry`. */
  function AdmitEntry(lib: Library, e: Entry): Server {
    match e
    case Undecodable(rule, salvaged) => Server("", salvaged, false, false, "", Auth("", ""), Some(rule))
    case Decoded(name, enabled, marked, url, auth) =>
      var s := Server("", name, enabled, marked, url, auth, None);
      if CheckDisplayName(lib, name).Some? then s.(violation := CheckDisplayName(lib, name))
      else
        match lib.canonical(url)
        case Err(rule) => s.(violation := Some(rule))
        case Ok(canonical) =>
          var t := s.(url := canonical, id := lib.serverId(canonical));
          if CheckAuth(lib, auth).Some? then t.(violation := CheckAuth(lib, auth))
          else if marked && !enabled then t.(violation := Some(DefaultMustBeEnabled))
          else t
  }

  /** What the contract asks of one entry. */
  predicate SoundEntry(lib: Library, e: Entry) {
    && e.Decoded?
    && (var name := lib.trim(e.displayName);
        name != "" && name[0] != '-' && forall i :: 0 <= i < |name| ==> name[i] as int > 0x1F && name[i] as int != 0x7F)
    && lib.canonical(e.url).Ok?
    && ((e.auth.mode == "none" && e.auth.token == "") || (e.auth.mode == "bearer" && lib.trim(e.auth.token) != ""))
    && (e.defaultExecution ==> e.enabled)
  }

  /** An entry is admitted on its own exactly when it is sound, under the canonical URL and the id derived from it. */
  lemma LocallyValidIff(lib: Library, e: Entry)
    ensures AdmitEntry(lib, e).violation.None? <==> SoundEntry(lib, e)
    ensures SoundEntry(lib, e) ==>
              var s, url := AdmitEntry(lib, e), lib.canonical(e.url).value;
              s == Server(lib.serverId(url), e.displayName, e.enabled, e.defaultExecution, url, e.auth, None)
  {
    assert "none" != "bearer" by { assert |"none"| != |"bearer"|; }
  }

  function AdmitAll(lib: Library, es: seq<Entry>): seq<Server> {
    seq(|es|, i requires 0 <= i < |es| => AdmitEntry(lib, es[i]))
  }

  // ------------------------------------------------------------------ collisions

  /** What two entries may not share: the server id, or the trimmed name among enabled entries. */
  datatype Sharing = SameUrl | SameName

  function Key(lib: Library, what: Sharing, s: Server): Option<string> {
    var value := if what.SameUrl? then s.id else lib.trim(s.displayName);
    if s.violation.Some? || (what.SameName? && !s.enabled) || value == "" then None else Some(value)
  }

  function RuleOf(what: Sharing): Rule {
    if what.SameUrl? then DuplicateUrl else DisplayNameUnique
  }

  /** Another still-valid entry shares the key of entry `i`. */
  predicate Collides(lib: Library, what: Sharing, ss: seq<Server>, i: nat)
    requires i < |ss|
  {
    Key(lib, what, ss[i]).Some? &&
    exists j :: 0 <= j < |ss| && j != i && Key(lib, what, ss[j]) == Key(lib, what, ss[i])
  }

  /** Every member of a collision is marked; none of them wins. */
  function MarkCollisions(lib: Library, what: Sharing, ss: seq<Server>): (r: seq<Server>)
    ensures |r| == |ss|
  {
    seq(|ss|, i requires 0 <= i < |ss| =>
      if Collides(lib, what, ss, i) then ss[i].(violation := Some(RuleOf(what))) else ss[i])
  }

  // --------------------------------------------------------------------- default

  predicate Marker(s: Server) {
    s.violation.None? && s.defaultExecution
  }

  predicate AnyMarker(ss: seq<Server>) {
    exists i :: 0 <= i < |ss| && Marker(ss[i])
  }

  predicate ManyMarkers(ss: seq<Server>) {
    exists i, j :: 0 <= i < j < |ss| && Marker(ss[i]) && Marker(ss[j])
  }

  predicate FirstUsable(ss: seq<Server>, i: nat)
    requires i < |ss|
  {
    Usable(ss[i]) && forall j :: 0 <= j < i ==> !Usable(ss[j])
  }

  function DropMarkers(ss: seq<Server>): (r: seq<Server>)
    ensures |r| == |ss|
  {
    seq(|ss|, i requires 0 <= i < |ss| =>
      if ManyMarkers(ss) && Marker(ss[i]) then ss[i].(violation := Some(AtMostOneDefault)) else ss[i])
  }

  function Fallback(ss: seq<Server>): (r: seq<Server>)
    ensures |r| == |ss|
  {
    seq(|ss|, i requires 0 <= i < |ss| => if FirstUsable(ss, i) then ss[i].(defaultExecution := true) else ss[i])
  }

  /** `markDefaultExecution`: rival markers are all invalid; with no marker left, the first usable entry is the default. */
  function MarkDefault(ss: seq<Server>): (r: seq<Server>)
    ensures |r| == |ss|
  {
    var kept := DropMarkers(ss);
    if AnyMarker(ss) && !ManyMarkers(ss) then kept else Fallback(kept)
  }

  /** `admitServers`. */
  function AdmitServers(lib: Library, es: seq<Entry>): (r: seq<Server>)
    ensures |r| == |es|
  {
    MarkDefault(MarkCollisions(lib, SameName, MarkCollisions(lib, SameUrl, AdmitAll(lib, es))))
  }

  // -------------------------------------------------------------------- outcome

  predicate Default(s: Server) {
    Usable(s) && s.defaultExecution
  }

  predicate DistinctKeys(lib: Library, what: Sharing, ss: seq<Server>) {
    forall i, j :: 0 <= i < j < |ss| && Key(lib, what, ss[i]).Some? ==> Key(lib, what, ss[i]) != Key(lib, what, ss[j])
  }

  lemma MarkedDistinct(lib: Library, what: Sharing, ss: seq<Server>)
    ensures DistinctKeys(lib, what, MarkCollisions(lib, what, ss))
  {
    var r := MarkCollisions(lib, what, ss);
    forall i, j | 0 <= i < j < |r| && Key(lib, what, r[i]).Some? ensures Key(lib, what, r[i]) != Key(lib, what, r[j]) {
      assert !Collides(lib, what, ss, i);
      assert r[i] == ss[i];
    }
  }

  /** Later phases only invalidate more; they change no key. */
  predicate Narrowed(a: seq<Server>, b: seq<Server>) {
    |a| == |b| && forall i :: 0 <= i < |a| ==>
      (b[i].violation.None? ==> a[i].violation.None?) &&
      b[i].id == a[i].id && b[i].displayName == a[i].displayName && b[i].enabled == a[i].enabled &&
      b[i].url == a[i].url && b[i].auth == a[i].auth
  }

  lemma DistinctKept(lib: Library, what: Sharing, a: seq<Server>, b: seq<Server>)
    requires DistinctKeys(lib, what, a) && Narrowed(a, b)
    ensures DistinctKeys(lib, what, b)
  {
    forall i, j | 0 <= i < j < |b| && Key(lib, what, b[i]).Some? ensures Key(lib, what, b[i]) != Key(lib, what, b[j]) {
      assert Key(lib, what, a[i]) == Key(lib, what, b[i]);
      assert Key(lib, what, b[j]).Some? ==> Key(lib, what, a[j]) == Key(lib, what, b[j]);
    }
  }

  /** A valid marker is enabled: `admitEntry` saw to it. */
  predicate MarkersEnabled(ss: seq<Server>) {
    forall i :: 0 <= i < |ss| && Marker(ss[i]) ==> ss[i].enabled
  }

  predicate ExactlyOneDefault(ss: seq<Server>) {
    exists i :: 0 <= i < |ss| && Default(ss[i]) && forall j :: 0 <= j < |ss| && Default(ss[j]) ==> j == i
  }

  lemma {:induction false} FirstUsableExists(ss: seq<Server>, k: nat) returns (i: nat)
    requires k < |ss| && Usable(ss[k])
    ensures i < |ss| && FirstUsable(ss, i)
  {
    i := 0;
    while !Usable(ss[i])
      invariant i <= k && forall j :: 0 <= j < i ==> !Usable(ss[j])
      decreases k - i
    {
      i := i + 1;
    }
  }

  lemma DefaultOutcome(ss: seq<Server>)
    requires MarkersEnabled(ss)
    ensures var r := MarkDefault(ss); (exists k :: 0 <= k < |r| && Usable(r[k])) ==> ExactlyOneDefault(r)
  {
    var kept, r := DropMarkers(ss), MarkDefault(ss);
    if k :| 0 <= k < |r| && Usable(r[k]) {
      if AnyMarker(ss) && !ManyMarkers(ss) {
        var i :| 0 <= i < |ss| && Marker(ss[i]);
        assert Default(r[i]);
        forall j | 0 <= j < |r| && Default(r[j]) ensures j == i {
          assert Marker(ss[j]);
          assert !(i < j) && !(j < i);
        }
      } else {
        assert Usable(kept[k]);
        var i := FirstUsableExists(kept, k);
        assert Default(r[i]);
        forall j | 0 <= j < |r| && Default(r[j]) ensures j == i {
          assert !Marker(kept[j]);
          assert FirstUsable(kept, j);
          assert !(i < j) && !(j < i);
        }
      }
    }
  }

  /** The default is the one marker that stands, or else the first usable entry. */
  lemma DefaultIsMarkerOrFirst(ss: seq<Server>, i: nat)
    requires i < |ss| && Default(MarkDefault(ss)[i])
    ensures var r := MarkDefault(ss);
            if AnyMarker(ss) && !ManyMarkers(ss) then Marker(ss[i])
            else !Marker(ss[i]) && forall j :: 0 <= j < i ==> !Usable(r[j])
  {
    var kept, r := DropMarkers(ss), MarkDefault(ss);
    if !(AnyMarker(ss) && !ManyMarkers(ss)) {
      assert Marker(ss[i]) ==> AnyMarker(ss);
      assert FirstUsable(kept, i);
      forall j | 0 <= j < i ensures !Usable(r[j]) { assert !Usable(kept[j]); }
    }
  }

  lemma MarkNarrows(lib: Library, what: Sharing, ss: seq<Server>)
    ensures Narrowed(ss, MarkCollisions(lib, what, ss))
    ensures MarkersEnabled(ss) ==> MarkersEnabled(MarkCollisions(lib, what, ss))
  {
  }

  lemma DefaultNarrows(ss: seq<Server>)
    ensures Narrowed(ss, MarkDefault(ss))
  {
  }

  lemma NarrowedTwice(a: seq<Server>, b: seq<Server>, c: seq<Server>)
    requires Narrowed(a, b) && Narrowed(b, c)
    ensures Narrowed(a, c)
  {
  }

  /** A locally valid entry has an id, a name, and is enabled if it is marked. */
  lemma LocallyValid(lib: Library, e: Entry)
    requires Proper(lib) && AdmitEntry(lib, e).violation.None?
    ensures var s := AdmitEntry(lib, e);
            s.id != "" && lib.trim(s.displayName) != "" && (s.defaultExecution ==> s.enabled)
  {
  }

  lemma UsableKeys(lib: Library, es: seq<Entry>, r: seq<Server>, i: nat)
    requires Proper(lib) && Narrowed(AdmitAll(lib, es), r) && i < |r| && Usable(r[i])
    ensures Key(lib, SameUrl, r[i]) == Some(r[i].id) && Key(lib, SameName, r[i]) == Some(lib.trim(r[i].displayName))
  {
    LocallyValid(lib, es[i]);
  }

  lemma PhasesNarrow(lib: Library, es: seq<Entry>)
    requires Proper(lib)
    ensures var byUrl := MarkCollisions(lib, SameUrl, AdmitAll(lib, es));
            var byName := MarkCollisions(lib, SameName, byUrl);
            && Narrowed(byUrl, byName) && Narrowed(byName, AdmitServers(lib, es)) && MarkersEnabled(byName)
            && Narrowed(AdmitAll(lib, es), AdmitServers(lib, es))
  {
    var local := AdmitAll(lib, es);
    forall i | 0 <= i < |local| && Marker(local[i]) ensures local[i].enabled { LocallyValid(lib, es[i]); }
    var byUrl := MarkCollisions(lib, SameUrl, local);
    var byName := MarkCollisions(lib, SameName, byUrl);
    MarkNarrows(lib, SameUrl, local);
    MarkNarrows(lib, SameName, byUrl);
    DefaultNarrows(byName);
    NarrowedTwice(local, byUrl, byName);
    NarrowedTwice(local, byName, MarkDefault(byName));
  }

  lemma OutcomeDistinct(lib: Library, es: seq<Entry>)
    requires Proper(lib)
    ensures DistinctKeys(lib, SameUrl, AdmitServers(lib, es)) && DistinctKeys(lib, SameName, AdmitServers(lib, es))
  {
    PhasesNarrow(lib, es);
    var byUrl := MarkCollisions(lib, SameUrl, AdmitAll(lib, es));
    var byName := MarkCollisions(lib, SameName, byUrl);
    MarkedDistinct(lib, SameUrl, AdmitAll(lib, es));
    MarkedDistinct(lib, SameName, byUrl);
    DistinctKept(lib, SameUrl, byUrl, byName);
    DistinctKept(lib, SameUrl, byName, AdmitServers(lib, es));
    DistinctKept(lib, SameName, byName, AdmitServers(lib, es));
  }

  /**
   For every document: usable servers have distinct ids and distinct trimmed names,
   if any server is usable then exactly one usable server is the default, no entry
   is dropped, renamed or re-pointed, and a usable one is sound and under its
   canonical URL.
   */
  lemma AdmissionOutcome(lib: Library, es: seq<Entry>)
    requires Proper(lib)
    ensures var r := AdmitServers(lib, es);
            && (forall i, j :: 0 <= i < j < |r| && Usable(r[i]) && Usable(r[j]) ==>
                  r[i].id != r[j].id && lib.trim(r[i].displayName) != lib.trim(r[j].displayName))
            && ((exists k :: 0 <= k < |r| && Usable(r[k])) ==> ExactlyOneDefault(r))
            && Narrowed(AdmitAll(lib, es), r)
            && forall i :: 0 <= i < |es| && Usable(r[i]) ==>
                 SoundEntry(lib, es[i]) && r[i].url == lib.canonical(es[i].url).value && r[i].id == lib.serverId(r[i].url)
  {
    var r := AdmitServers(lib, es);
    PhasesNarrow(lib, es);
    forall i | 0 <= i < |es| && Usable(r[i])
      ensures SoundEntry(lib, es[i]) && r[i].url == lib.canonical(es[i].url).value && r[i].id == lib.serverId(r[i].url)
    {
      LocallyValidIff(lib, es[i]);
    }
    OutcomeDistinct(lib, es);
    DefaultOutcome(MarkCollisions(lib, SameName, MarkCollisions(lib, SameUrl, AdmitAll(lib, es))));
    forall i, j | 0 <= i < j < |r| && Usable(r[i]) && Usable(r[j])
      ensures r[i].id != r[j].id && lib.trim(r[i].displayName) != lib.trim(r[j].displayName)
    {
      UsableKeys(lib, es, r, i);
      UsableKeys(lib, es, r, j);
    }
  }

  // --------------------------------------------------------------- interference

  function Without<T>(xs: seq<T>, k: nat): seq<T>
    requires k < |xs|
  {
    xs[..k] + xs[k + 1..]
  }

  /** Where element `i` of `Without(xs, k)` stood. */
  function Was(i: nat, k: nat): nat {
    if i < k then i else i + 1
  }

  function Now(j: nat, k: nat): nat
    requires j != k
  {
    if j < k then j else j - 1
  }

  lemma CollidesWithout(lib: Library, what: Sharing, ss: seq<Server>, k: nat, i: nat)
    requires k < |ss| && ss[k].violation.Some? && i < |ss| - 1
    ensures Collides(lib, what, Without(ss, k), i) == Collides(lib, what, ss, Was(i, k))
  {
    var less := Without(ss, k);
    assert less[i] == ss[Was(i, k)];
    if Collides(lib, what, less, i) {
      var j :| 0 <= j < |less| && j != i && Key(lib, what, less[j]) == Key(lib, what, less[i]);
      assert ss[Was(j, k)] == less[j];
    }
    if Collides(lib, what, ss, Was(i, k)) {
      var j :| 0 <= j < |ss| && j != Was(i, k) && Key(lib, what, ss[j]) == Key(lib, what, ss[Was(i, k)]);
      assert less[Now(j, k)] == ss[j];
    }
  }

  lemma MarkWithout(lib: Library, what: Sharing, ss: seq<Server>, k: nat)
    requires k < |ss| && ss[k].violation.Some?
    ensures MarkCollisions(lib, what, Without(ss, k)) == Without(MarkCollisions(lib, what, ss), k)
    ensures MarkCollisions(lib, what, ss)[k] == ss[k]
  {
    var less, marked := Without(ss, k), MarkCollisions(lib, what, ss);
    forall i | 0 <= i < |less| ensures MarkCollisions(lib, what, less)[i] == Without(marked, k)[i] {
      CollidesWithout(lib, what, ss, k, i);
      assert less[i] == ss[Was(i, k)] && Without(marked, k)[i] == marked[Was(i, k)];
    }
  }

  lemma AnyMarkerWithout(ss: seq<Server>, k: nat)
    requires k < |ss| && ss[k].violation.Some?
    ensures AnyMarker(Without(ss, k)) == AnyMarker(ss)
  {
    var less := Without(ss, k);
    if AnyMarker(less) {
      var i :| 0 <= i < |less| && Marker(less[i]);
      assert ss[Was(i, k)] == less[i];
    }
    if AnyMarker(ss) {
      var i :| 0 <= i < |ss| && Marker(ss[i]);
      assert less[Now(i, k)] == ss[i];
    }
  }

  lemma ManyMarkersWithout(ss: seq<Server>, k: nat)
    requires k < |ss| && ss[k].violation.Some?
    ensures ManyMarkers(Without(ss, k)) == ManyMarkers(ss)
  {
    var less := Without(ss, k);
    if ManyMarkers(less) {
      var i, j :| 0 <= i < j < |less| && Marker(less[i]) && Marker(less[j]);
      assert ss[Was(i, k)] == less[i] && ss[Was(j, k)] == less[j];
    }
    if ManyMarkers(ss) {
      var i, j :| 0 <= i < j < |ss| && Marker(ss[i]) && Marker(ss[j]);
      assert less[Now(i, k)] == ss[i] && less[Now(j, k)] == ss[j];
    }
  }

  lemma DropMarkersWithout(ss: seq<Server>, k: nat)
    requires k < |ss| && ss[k].violation.Some?
    ensures DropMarkers(Without(ss, k)) == Without(DropMarkers(ss), k) && DropMarkers(ss)[k] == ss[k]
  {
    ManyMarkersWithout(ss, k);
    var less, kept := Without(ss, k), DropMarkers(ss);
    forall i | 0 <= i < |less| ensures DropMarkers(less)[i] == Without(kept, k)[i] {
      assert less[i] == ss[Was(i, k)] && Without(kept, k)[i] == kept[Was(i, k)];
    }
  }

  lemma FallbackWithout(ss: seq<Server>, k: nat)
    requires k < |ss| && ss[k].violation.Some?
    ensures Fallback(Without(ss, k)) == Without(Fallback(ss), k)
  {
    var less := Without(ss, k);
    forall i | 0 <= i < |less| ensures FirstUsable(less, i) == FirstUsable(ss, Was(i, k)) {
      forall j | 0 <= j < i ensures Usable(less[j]) == Usable(ss[Was(j, k)]) {}
      forall j | 0 <= j < Was(i, k) && j != k ensures ss[j] == less[if j < k then j else j - 1] {}
    }
  }

  /**
   Deleting an entry that is invalid on its own leaves every other entry's violation,
   admission and default flag as they were.
   */
  lemma LocallyInvalidDoesNotInterfere(lib: Library, es: seq<Entry>, k: nat)
    requires k < |es| && AdmitEntry(lib, es[k]).violation.Some?
    ensures AdmitServers(lib, Without(es, k)) == Without(AdmitServers(lib, es), k)
  {
    var local := AdmitAll(lib, es);
    assert AdmitAll(lib, Without(es, k)) == Without(local, k);
    var byUrl := MarkCollisions(lib, SameUrl, local);
    MarkWithout(lib, SameUrl, local, k);
    MarkWithout(lib, SameName, byUrl, k);
    DefaultWithout(MarkCollisions(lib, SameName, byUrl), k);
  }

  lemma DefaultWithout(ss: seq<Server>, k: nat)
    requires k < |ss| && ss[k].violation.Some?
    ensures MarkDefault(Without(ss, k)) == Without(MarkDefault(ss), k)
  {
    AnyMarkerWithout(ss, k);
    ManyMarkersWithout(ss, k);
    DropMarkersWithout(ss, k);
    FallbackWithout(DropMarkers(ss), k);
  }
}
