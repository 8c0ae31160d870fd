/** Defaulting and validating the ingress ports of a revision:
    api/v1alpha1/revision_webhook.go. The functions say what the patches do to one target;
    the class does it in place, target by target. */
module Webhook {
  import opened Base

  datatype PortMode = Public | Private | OtherMode

  /** `ingresses` is absent, or present and possibly empty, which is not the same. */
  datatype Port = Port(name: string, mode: PortMode, isDefault: bool, ingresses: Option<seq<string>>)

  datatype Spec = Spec(ports: seq<Port>, defaults: Option<map<string, string>>)

  /** A port in a bucket. */
  datatype Entry = Entry(name: string, isDefault: bool, index: nat)

  type Buckets = map<string, seq<Entry>>

  const PRIVATE := "private"
  const PUBLIC := "public"
  const HTTP := "http"

  // ---------------------------------------------------------------- buckets

  /** The ingresses a port goes through. */
  function Memberships(p: Port): seq<string> {
    if p.ingresses.Some? then p.ingresses.value
    else
      match p.mode
      case Public => [PUBLIC, PRIVATE]
      case Private => [PRIVATE]
      case OtherMode => []
  }

  function Repeated(entry: Entry, names: seq<string>, ingress: string): (r: seq<Entry>)
    ensures forall e :: e in r ==> e == entry
    ensures r == [] <==> ingress !in names
  {
    if names == [] then []
    else
      Repeated(entry, names[..|names| - 1], ingress)
      + (if names[|names| - 1] == ingress then [entry] else [])
  }

  function EntryOf(ports: seq<Port>, i: nat): Entry
    requires i < |ports|
  {
    Entry(ports[i].name, ports[i].isDefault, i)
  }

  /** What one port contributes to an ingress: one entry each time it is listed there. */
  function Part(ports: seq<Port>, i: nat, ingress: string): seq<Entry>
    requires i < |ports|
  {
    Repeated(EntryOf(ports, i), Memberships(ports[i]), ingress)
  }

  function Joined(parts: seq<seq<Entry>>, n: nat): seq<Entry>
    requires n <= |parts|
  {
    if n == 0 then [] else Joined(parts, n - 1) + parts[n - 1]
  }

  function Parts(ports: seq<Port>, ingress: string): (r: seq<seq<Entry>>)
    ensures |r| == |ports|
  {
    seq(|ports|, i requires 0 <= i < |ports| => Part(ports, i, ingress))
  }

  /** The ports behind an ingress, in order, among the first `n`. */
  function Bucket(ports: seq<Port>, n: nat, ingress: string): seq<Entry>
    requires n <= |ports|
  {
    Joined(Parts(ports, ingress), n)
  }

  function BucketOf(ports: seq<Port>, ingress: string): seq<Entry> { Bucket(ports, |ports|, ingress) }

  ghost predicate BucketsUpTo(track: Buckets, ports: seq<Port>, n: nat)
    requires n <= |ports|
  {
    && (forall k :: k in track <==> Bucket(ports, n, k) != [])
    && (forall k :: k in track ==> track[k] == Bucket(ports, n, k))
  }

  /** A bucket while port `n` goes through its ingresses, `names` so far. */
  function Within(ports: seq<Port>, n: nat, names: seq<string>, ingress: string): seq<Entry>
    requires n < |ports|
  {
    Bucket(ports, n, ingress) + Repeated(EntryOf(ports, n), names, ingress)
  }

  ghost predicate BucketsWithin(track: Buckets, ports: seq<Port>, n: nat, names: seq<string>)
    requires n < |ports|
  {
    && (forall k :: k in track <==> Within(ports, n, names, k) != [])
    && (forall k :: k in track ==> track[k] == Within(ports, n, names, k))
  }

  function Appended(track: Buckets, ingress: string, entry: Entry): Buckets {
    track[ingress := (if ingress in track then track[ingress] else []) + [entry]]
  }

  lemma WithinOneMore(ports: seq<Port>, n: nat, names: seq<string>, ingress: string, k: string)
    requires n < |ports|
    ensures Within(ports, n, names + [ingress], k)
         == Within(ports, n, names, k) + (if ingress == k then [EntryOf(ports, n)] else [])
  {
    var longer := names + [ingress];
    assert longer[..|longer| - 1] == names;
  }

  lemma AppendOne(track: Buckets, ports: seq<Port>, n: nat, names: seq<string>, ingress: string)
    requires n < |ports| && BucketsWithin(track, ports, n, names)
    ensures BucketsWithin(Appended(track, ingress, EntryOf(ports, n)), ports, n, names + [ingress])
  {
    forall k
      ensures Within(ports, n, names + [ingress], k)
           == Within(ports, n, names, k) + (if ingress == k then [EntryOf(ports, n)] else [])
    {
      WithinOneMore(ports, n, names, ingress, k);
    }
  }

  lemma AppendNext(track: Buckets, ports: seq<Port>, n: nat, names: seq<string>, j: nat)
    requires n < |ports| && j < |names| && BucketsWithin(track, ports, n, names[..j])
    ensures BucketsWithin(Appended(track, names[j], EntryOf(ports, n)), ports, n, names[..j + 1])
  {
    AppendOne(track, ports, n, names[..j], names[j]);
    assert names[..j + 1] == names[..j] + [names[j]];
  }

  lemma StartPort(track: Buckets, ports: seq<Port>, n: nat)
    requires n < |ports| && BucketsUpTo(track, ports, n)
    ensures BucketsWithin(track, ports, n, [])
  {
    assert forall k :: Within(ports, n, [], k) == Bucket(ports, n, k);
  }

  lemma EndPort(track: Buckets, ports: seq<Port>, n: nat)
    requires n < |ports| && BucketsWithin(track, ports, n, Memberships(ports[n]))
    ensures BucketsUpTo(track, ports, n + 1)
  {
    assert forall k :: Within(ports, n, Memberships(ports[n]), k) == Bucket(ports, n + 1, k);
  }

  method BucketIngressPorts(ports: seq<Port>) returns (track: Buckets)
    ensures BucketsUpTo(track, ports, |ports|)
  {
    track := map[];
    for i := 0 to |ports|
      invariant BucketsUpTo(track, ports, i)
    {
      track := BucketPort(ports, i, track);
    }
  }

  method BucketPort(ports: seq<Port>, i: nat, before: Buckets) returns (track: Buckets)
    requires i < |ports| && BucketsUpTo(before, ports, i)
    ensures BucketsUpTo(track, ports, i + 1)
  {
    StartPort(before, ports, i);
    if ports[i].ingresses.Some? {
      track := BucketListed(ports, i, before);
    } else {
      track := BucketByMode(ports, i, before);
    }
    EndPort(track, ports, i);
  }

  method BucketListed(ports: seq<Port>, i: nat, before: Buckets) returns (track: Buckets)
    requires i < |ports| && ports[i].ingresses.Some? && BucketsWithin(before, ports, i, [])
    ensures BucketsWithin(track, ports, i, Memberships(ports[i]))
  {
    track := before;
    var names := ports[i].ingresses.value;
    for j := 0 to |names|
      invariant BucketsWithin(track, ports, i, names[..j])
    {
      AppendNext(track, ports, i, names, j);
      track := Appended(track, names[j], EntryOf(ports, i));
    }
    assert names[..|names|] == names;
  }

  method BucketByMode(ports: seq<Port>, i: nat, before: Buckets) returns (track: Buckets)
    requires i < |ports| && ports[i].ingresses.None? && BucketsWithin(before, ports, i, [])
    ensures BucketsWithin(track, ports, i, Memberships(ports[i]))
  {
    track := before;
    match ports[i].mode
    case Public =>
      track := BucketBoth(ports, i, before, PUBLIC, PRIVATE);
    case Private =>
      AppendOne(track, ports, i, [], PRIVATE);
      assert [] + [PRIVATE] == [PRIVATE];
      track := Appended(track, PRIVATE, EntryOf(ports, i));
    case OtherMode =>
  }

  method BucketBoth(ports: seq<Port>, i: nat, before: Buckets, first: string, second: string) returns (track: Buckets)
    requires i < |ports| && BucketsWithin(before, ports, i, [])
    ensures BucketsWithin(track, ports, i, [first, second])
  {
    AppendOne(before, ports, i, [], first);
    assert [] + [first] == [first];
    track := Appended(before, first, EntryOf(ports, i));
    AppendOne(track, ports, i, [first], second);
    assert [first] + [second] == [first, second];
    track := Appended(track, second, EntryOf(ports, i));
  }

  // ---------------------------------------------------------------- patches

  function PatchedPort(p: Port): Port {
    var listed := if p.ingresses.Some? then p.ingresses.value else [];
    if |listed| > 0 then p
    else
      match p.mode
      case Public => p.(ingresses := Some(listed + [PRIVATE] + [PUBLIC]))
      case Private => p.(ingresses := Some(listed + [PRIVATE]))
      case OtherMode => p
  }

  function PatchedPorts(ports: seq<Port>): (r: seq<Port>)
    ensures |r| == |ports|
  {
    seq(|ports|, i requires 0 <= i < |ports| => PatchedPort(ports[i]))
  }

  predicate AnyDefault(bucket: seq<Entry>) { exists e :: e in bucket && e.isDefault }

  predicate AnyNamed(bucket: seq<Entry>, name: string) { exists e :: e in bucket && e.name == name }

  /** The default a bucket suggests, if any. */
  function Suggested(bucket: seq<Entry>): Option<string> {
    if !AnyDefault(bucket) && AnyNamed(bucket, HTTP) then Some(HTTP)
    else if |bucket| == 1 then Some(bucket[0].name)
    else None
  }

  /** Exactly the suggestions of these ports. */
  ghost predicate AreSuggestions(m: map<string, string>, ports: seq<Port>) {
    && (forall k :: k in m <==> Suggested(BucketOf(ports, k)).Some?)
    && (forall k :: k in m ==> Suggested(BucketOf(ports, k)) == Some(m[k]))
  }

  lemma SuggestionsAreUnique(m: map<string, string>, n: map<string, string>, ports: seq<Port>)
    requires AreSuggestions(m, ports) && AreSuggestions(n, ports)
    ensures m == n
  {
  }

  /** What the presets are completed to. */
  function Completed(defaults: Option<map<string, string>>, suggestions: map<string, string>): Option<map<string, string>> {
    if (defaults.None? || |defaults.value| == 0) && |suggestions| > 0 then Some(suggestions)
    else if defaults.None? then None
    else Some(suggestions + defaults.value)
  }

  /** `defaults` is `presets` completed with what the ports suggest. */
  ghost predicate DefaultsCompleted(ports: seq<Port>, presets: Option<map<string, string>>,
                                    defaults: Option<map<string, string>>)
  {
    exists m :: AreSuggestions(m, ports) && defaults == Completed(presets, m)
  }

  /** `after` is the target `before` with both patches applied. */
  ghost predicate IsPatched(before: Spec, after: Spec) {
    after.ports == PatchedPorts(before.ports) && DefaultsCompleted(after.ports, before.defaults, after.defaults)
  }

  method Suggest(bucket: seq<Entry>) returns (suggestion: Option<string>)
    ensures suggestion == Suggested(bucket)
  {
    suggestion := None;
    if |bucket| == 1 {
      suggestion := Some(bucket[0].name);
    }
    var httpFound, defaultFound := false, false;
    for j := 0 to |bucket|
      invariant defaultFound <==> exists k :: 0 <= k < j && bucket[k].isDefault
      invariant httpFound <==> exists k :: 0 <= k < j && bucket[k].name == HTTP
    {
      defaultFound := defaultFound || bucket[j].isDefault;
      if bucket[j].name == HTTP {
        httpFound := true;
      }
    }
    if !defaultFound && httpFound {
      suggestion := Some(HTTP);
    }
  }

  method SuggestAll(ports: seq<Port>) returns (m: map<string, string>)
    ensures AreSuggestions(m, ports)
  {
    var buckets := BucketIngressPorts(ports);
    m := map[];
    var rest := buckets.Keys;
    while rest != {}
      invariant rest <= buckets.Keys
      invariant forall k :: k in m <==> k in buckets && k !in rest && Suggested(buckets[k]).Some?
      invariant forall k :: k in m ==> Suggested(buckets[k]) == Some(m[k])
    {
      var ingress :| ingress in rest;
      rest := rest - {ingress};
      var suggestion := Suggest(buckets[ingress]);
      if suggestion.Some? {
        m := m[ingress := suggestion.value];
      }
    }
    assert forall k :: k !in buckets ==> Suggested(BucketOf(ports, k)).None?;
  }

  method PatchPort(port: Port) returns (patched: Port)
    ensures patched == PatchedPort(port)
  {
    if port.ingresses.Some? && |port.ingresses.value| > 0 {
      return port;
    }
    var ingresses := if port.ingresses.Some? then port.ingresses.value else [];
    patched := port;
    if port.mode == Private || port.mode == Public {
      ingresses := ingresses + [PRIVATE];
      patched := port.(ingresses := Some(ingresses));
    }
    if port.mode == Public {
      ingresses := ingresses + [PUBLIC];
      patched := port.(ingresses := Some(ingresses));
    }
  }

  predicate PatchedUpTo(before: seq<Port>, after: seq<Port>, j: nat) {
    && j <= |before| == |after|
    && (forall k :: 0 <= k < j ==> after[k] == PatchedPort(before[k]))
    && (forall k :: j <= k < |before| ==> after[k] == before[k])
  }

  lemma OneMorePatched(before: seq<Port>, after: seq<Port>, j: nat)
    requires j < |before| && PatchedUpTo(before, after, j)
    ensures PatchedUpTo(before, after[j := PatchedPort(after[j])], j + 1)
  {
  }

  class Revision {
    var targets: seq<Spec>

    constructor (targets: seq<Spec>)
      ensures this.targets == targets
    {
      this.targets := targets;
    }

    /** Default: both patches, applied to every target. */
    method GetPatches()
      modifies this
      ensures |targets| == |old(targets)|
      ensures forall i :: 0 <= i < |targets| ==> IsPatched(old(targets)[i], targets[i])
    {
      GetIngressesPatches();
      GetIngressDefaultPortPatches();
    }

    method GetIngressesPatches()
      modifies this
      ensures |targets| == |old(targets)|
      ensures forall i :: 0 <= i < |targets| ==>
        targets[i] == old(targets)[i].(ports := PatchedPorts(old(targets)[i].ports))
    {
      for i := 0 to |targets|
        invariant |targets| == |old(targets)|
        invariant forall k :: 0 <= k < i ==> targets[k] == old(targets)[k].(ports := PatchedPorts(old(targets)[k].ports))
        invariant forall k :: i <= k < |targets| ==> targets[k] == old(targets)[k]
      {
        PatchPorts(i);
      }
    }

    method PatchPorts(i: nat)
      requires i < |targets|
      modifies this
      ensures targets == old(targets)[i := old(targets)[i].(ports := PatchedPorts(old(targets)[i].ports))]
    {
      ghost var before := targets;
      ghost var ports := targets[i].ports;
      var n := |targets[i].ports|;
      for j := 0 to n
        invariant |targets| == |before| && |targets[i].ports| == |ports| == n
        invariant targets == before[i := before[i].(ports := targets[i].ports)]
        invariant PatchedUpTo(ports, targets[i].ports, j)
      {
        var patched := PatchPort(targets[i].ports[j]);
        OneMorePatched(ports, targets[i].ports, j);
        targets := targets[i := targets[i].(ports := targets[i].ports[j := patched])];
      }
      assert targets[i].ports == PatchedPorts(ports);
    }

    method GetIngressDefaultPortPatches()
      modifies this
      ensures |targets| == |old(targets)|
      ensures forall i :: 0 <= i < |targets| ==>
        && targets[i].ports == old(targets)[i].ports
        && DefaultsCompleted(targets[i].ports, old(targets)[i].defaults, targets[i].defaults)
    {
      for i := 0 to |targets|
        invariant |targets| == |old(targets)|
        invariant forall k :: 0 <= k < i ==>
          && targets[k].ports == old(targets)[k].ports
          && DefaultsCompleted(targets[k].ports, old(targets)[k].defaults, targets[k].defaults)
        invariant forall k :: i <= k < |targets| ==> targets[k] == old(targets)[k]
      {
        var ingressDefaultPorts := SuggestAll(targets[i].ports);
        var defaults := CompleteDefaults(targets[i].defaults, ingressDefaultPorts);
        assert DefaultsCompleted(targets[i].ports, targets[i].defaults, defaults);
        targets := targets[i := targets[i].(defaults := defaults)];
      }
    }
  }

  method CompleteDefaults(existing: Option<map<string, string>>, suggestions: map<string, string>)
    returns (defaults: Option<map<string, string>>)
    ensures defaults == Completed(existing, suggestions)
  {
    if (existing.None? || |existing.value| <= 0) && |suggestions| > 0 {
      return Some(suggestions);
    }
    if existing.None? {
      return existing;
    }
    var merged := existing.value;
    var rest := suggestions.Keys;
    while rest != {}
      invariant rest <= suggestions.Keys
      invariant merged.Keys == existing.value.Keys + (suggestions.Keys - rest)
      invariant forall k :: k in merged ==>
        merged[k] == if k in existing.value then existing.value[k] else suggestions[k]
    {
      var ingress :| ingress in rest;
      rest := rest - {ingress};
      if ingress !in existing.value {
        merged := merged[ingress := suggestions[ingress]];
      }
    }
    assert merged == suggestions + existing.value;
    defaults := Some(merged);
  }

  // ---------------------------------------------------------------- what defaulting means

  /** An http port with no port flagged as the default is the default; else a single port is;
      else none is. */
  lemma SuggestedMeans(bucket: seq<Entry>)
    ensures var http := exists k :: 0 <= k < |bucket| && bucket[k].name == "http";
            var flagged := exists k :: 0 <= k < |bucket| && bucket[k].isDefault;
            Suggested(bucket)
            == if http && !flagged then Some("http") else if |bucket| == 1 then Some(bucket[0].name) else None
  {
    if e :| e in bucket && e.name == HTTP {
      var k :| 0 <= k < |bucket| && bucket[k] == e;
    }
    if e :| e in bucket && e.isDefault {
      var k :| 0 <= k < |bucket| && bucket[k] == e;
    }
  }

  /** A port goes through the ingresses it lists; without a list through those of its mode. */
  predicate GoesThrough(p: Port, ingress: string) {
    match p.ingresses
    case Some(names) => ingress in names
    case None =>
      (p.mode == Public && (ingress == "public" || ingress == "private")) || (p.mode == Private && ingress == "private")
  }

  lemma {:induction false} JoinedHolds(parts: seq<seq<Entry>>, n: nat, e: Entry)
    requires n <= |parts|
    ensures e in Joined(parts, n) <==> exists i :: 0 <= i < n && e in parts[i]
  {
    if n > 0 {
      JoinedHolds(parts, n - 1, e);
    }
  }

  /** Behind an ingress are exactly the ports that go through it. */
  lemma BucketHolds(ports: seq<Port>, ingress: string, e: Entry)
    ensures e in BucketOf(ports, ingress)
       <==> exists i :: 0 <= i < |ports| && GoesThrough(ports[i], ingress)
                        && e == Entry(ports[i].name, ports[i].isDefault, i)
  {
    JoinedHolds(Parts(ports, ingress), |ports|, e);
    forall i | 0 <= i < |ports|
      ensures e in Parts(ports, ingress)[i]
         <==> GoesThrough(ports[i], ingress) && e == Entry(ports[i].name, ports[i].isDefault, i)
    {
      PartHolds(ports, i, ingress, e);
    }
  }

  lemma PartHolds(ports: seq<Port>, i: nat, ingress: string, e: Entry)
    requires i < |ports|
    ensures e in Part(ports, i, ingress)
       <==> GoesThrough(ports[i], ingress) && e == Entry(ports[i].name, ports[i].isDefault, i)
  {
    RepeatedHolds(EntryOf(ports, i), Memberships(ports[i]), ingress);
  }

  lemma {:induction false} RepeatedHolds(entry: Entry, names: seq<string>, ingress: string)
    ensures ingress in names <==> entry in Repeated(entry, names, ingress)
  {
    if names != [] {
      RepeatedHolds(entry, names[..|names| - 1], ingress);
      assert names == names[..|names| - 1] + [names[|names| - 1]];
    }
  }

  /** A public or private port without ingresses is given those of its mode; nothing else
      changes. */
  lemma PatchedPortMeans(p: Port)
    ensures PatchedPort(p)
         == if p.ingresses.Some? && p.ingresses.value != [] then p
            else match p.mode
                 case Public => Port(p.name, Public, p.isDefault, Some(["private", "public"]))
                 case Private => Port(p.name, Private, p.isDefault, Some(["private"]))
                 case OtherMode => p
  {
    assert [] + [PRIVATE] + [PUBLIC] == [PRIVATE, PUBLIC];
    assert [] + [PRIVATE] == [PRIVATE];
  }

  /** Every preset default stays as it is, and suggestions are added where nothing was preset. */
  lemma CompletedMeans(presets: Option<map<string, string>>, suggestions: map<string, string>, ingress: string)
    ensures var was, done := presets.Some? && ingress in presets.value, Completed(presets, suggestions);
            && (done.None? <==> presets.None? && suggestions == map[])
            && (done.Some? ==>
                  && (ingress in done.value <==> was || ingress in suggestions)
                  && (ingress in done.value ==>
                        done.value[ingress] == if was then presets.value[ingress] else suggestions[ingress]))
  {
  }

  // ---------------------------------------------------------------- validation

  datatype IngressError =
    | NoDefaults(ingress: string)
    | NoSuchPort(ingress: string)
    | NoSuchIngress(ingress: string)

  /** A missing entry reads as the empty name. */
  function DefaultFor(defaults: Option<map<string, string>>, ingress: string): string {
    if defaults.Some? && ingress in defaults.value then defaults.value[ingress] else ""
  }

  ghost predicate ErrorHolds(t: Spec, e: IngressError) {
    var bucket := BucketOf(t.ports, e.ingress);
    match e
    case NoDefaults(_) => bucket != [] && t.defaults.None?
    case NoSuchPort(i) => bucket != [] && !AnyNamed(bucket, DefaultFor(t.defaults, i))
    case NoSuchIngress(i) => bucket == [] && t.defaults.Some? && i in t.defaults.value
  }

  method ValidateIngresses(t: Spec) returns (errors: seq<IngressError>)
    ensures forall e :: e in errors <==> ErrorHolds(t, e)
  {
    errors := [];
    var buckets := BucketIngressPorts(t.ports);
    var rest := buckets.Keys;
    while rest != {}
      invariant rest <= buckets.Keys
      invariant forall e :: e in errors <==> !e.NoSuchIngress? && e.ingress in buckets && e.ingress !in rest && ErrorHolds(t, e)
    {
      var ingress :| ingress in rest;
      rest := rest - {ingress};
      if t.defaults.None? {
        errors := errors + [NoDefaults(ingress)];
      }
      var found := HasPort(buckets[ingress], DefaultFor(t.defaults, ingress));
      if !found {
        errors := errors + [NoSuchPort(ingress)];
      }
    }
    if t.defaults.Some? {
      rest := t.defaults.value.Keys;
      while rest != {}
        invariant rest <= t.defaults.value.Keys
        invariant forall e :: e in errors <==>
          && ErrorHolds(t, e)
          && (if e.NoSuchIngress? then e.ingress !in rest else e.ingress in buckets)
      {
        var ingress :| ingress in rest;
        rest := rest - {ingress};
        if ingress !in buckets {
          errors := errors + [NoSuchIngress(ingress)];
        }
      }
    }
  }

  method HasPort(ports: seq<Entry>, name: string) returns (found: bool)
    ensures found == AnyNamed(ports, name)
  {
    found := false;
    for k := 0 to |ports|
      invariant !found && forall j :: 0 <= j < k ==> ports[j].name != name
    {
      if ports[k].name == name {
        return true;
      }
    }
  }

  ghost predicate IngressesValid(t: Spec) { forall e: IngressError :: !ErrorHolds(t, e) }

  // ---------------------------------------------------------------- defaulting agrees with validation

  lemma PatchedPortTwice(p: Port)
    ensures PatchedPort(PatchedPort(p)) == PatchedPort(p)
  {
  }

  lemma PatchedPortsTwice(ports: seq<Port>)
    ensures PatchedPorts(PatchedPorts(ports)) == PatchedPorts(ports)
  {
    forall i | 0 <= i < |ports| ensures PatchedPorts(PatchedPorts(ports))[i] == PatchedPorts(ports)[i] {
      PatchedPortTwice(ports[i]);
    }
  }

  lemma CompletedTwice(defaults: Option<map<string, string>>, m: map<string, string>)
    ensures Completed(Completed(defaults, m), m) == Completed(defaults, m)
  {
    var completed := Completed(defaults, m);
    if completed.Some? {
      assert m + completed.value == completed.value;
    }
  }

  /** Patching again changes nothing. */
  lemma PatchingIsIdempotent(a: Spec, b: Spec, c: Spec)
    requires IsPatched(a, b) && IsPatched(b, c)
    ensures c == b
  {
    PatchedPortsTwice(a.ports);
    var m :| AreSuggestions(m, b.ports) && b.defaults == Completed(a.defaults, m);
    var n :| AreSuggestions(n, c.ports) && c.defaults == Completed(b.defaults, n);
    SuggestionsAreUnique(m, n, b.ports);
    CompletedTwice(a.defaults, m);
  }

  /** An ingress list that is there but empty hides the port from the buckets, until the
      patch fills it. */
  predicate Hidden(p: Port) { p.ingresses == Some([]) && p.mode != OtherMode }

  lemma RepeatedTwo(entry: Entry, a: string, b: string, ingress: string)
    ensures Repeated(entry, [a, b], ingress)
         == (if a == ingress then [entry] else []) + (if b == ingress then [entry] else [])
  {
    assert [a, b][..1] == [a];
    assert [a][..0] == [];
  }

  lemma PartSurvivesPatching(ports: seq<Port>, i: nat, ingress: string)
    requires i < |ports| && !Hidden(ports[i])
    ensures Part(PatchedPorts(ports), i, ingress) == Part(ports, i, ingress)
  {
    var entry, p := EntryOf(ports, i), ports[i];
    if p.ingresses.None? && p.mode == Public {
      RepeatedTwo(entry, PUBLIC, PRIVATE, ingress);
      RepeatedTwo(entry, PRIVATE, PUBLIC, ingress);
      assert [] + [PRIVATE] + [PUBLIC] == [PRIVATE, PUBLIC];
    }
  }

  lemma HiddenPartAppears(ports: seq<Port>, i: nat)
    requires i < |ports| && Hidden(ports[i])
    ensures Part(ports, i, PRIVATE) == [] && Part(PatchedPorts(ports), i, PRIVATE) != []
  {
    assert PRIVATE in Memberships(PatchedPort(ports[i]));
  }

  lemma {:induction false} LongerParts(a: seq<seq<Entry>>, b: seq<seq<Entry>>, n: nat, i: nat)
    requires n <= |a| == |b| && i < |a|
    requires forall k :: 0 <= k < |a| ==> |a[k]| <= |b[k]|
    requires |a[i]| < |b[i]|
    ensures |Joined(a, n)| <= |Joined(b, n)|
    ensures i < n ==> |Joined(a, n)| < |Joined(b, n)|
  {
    if n > 0 {
      LongerParts(a, b, n - 1, i);
    }
  }

  lemma BucketsSurvivePatching(ports: seq<Port>)
    requires forall i :: 0 <= i < |ports| ==> !Hidden(ports[i])
    ensures forall ingress :: BucketOf(PatchedPorts(ports), ingress) == BucketOf(ports, ingress)
  {
    forall ingress ensures BucketOf(PatchedPorts(ports), ingress) == BucketOf(ports, ingress) {
      forall i | 0 <= i < |ports| ensures Part(PatchedPorts(ports), i, ingress) == Part(ports, i, ingress) {
        PartSurvivesPatching(ports, i, ingress);
      }
      assert Parts(PatchedPorts(ports), ingress) == Parts(ports, ingress);
    }
  }

  /** Patching keeps every bucket exactly when no port is hidden. */
  lemma BucketsAreKeptExactlyWhen(ports: seq<Port>)
    ensures (forall ingress :: BucketOf(PatchedPorts(ports), ingress) == BucketOf(ports, ingress))
       <==> forall i :: 0 <= i < |ports| ==> !Hidden(ports[i])
  {
    if i :| 0 <= i < |ports| && Hidden(ports[i]) {
      forall k | 0 <= k < |ports| ensures |Part(ports, k, PRIVATE)| <= |Part(PatchedPorts(ports), k, PRIVATE)| {
        if Hidden(ports[k]) {
          HiddenPartAppears(ports, k);
        } else {
          PartSurvivesPatching(ports, k, PRIVATE);
        }
      }
      HiddenPartAppears(ports, i);
      LongerParts(Parts(ports, PRIVATE), Parts(PatchedPorts(ports), PRIVATE), |ports|, i);
      assert BucketOf(PatchedPorts(ports), PRIVATE) != BucketOf(ports, PRIVATE);
    } else {
      BucketsSurvivePatching(ports);
    }
  }

  predicate NamedPorts(ports: seq<Port>) { forall i :: 0 <= i < |ports| ==> ports[i].name != "" }

  lemma {:induction false} EntriesAreNamed(ports: seq<Port>, n: nat, ingress: string)
    requires n <= |ports| && NamedPorts(ports)
    ensures !AnyNamed(Bucket(ports, n, ingress), "")
  {
    if n > 0 {
      EntriesAreNamed(ports, n - 1, ingress);
    }
  }

  lemma SuggestionNamesAPort(bucket: seq<Entry>)
    requires Suggested(bucket).Some?
    ensures bucket != [] && AnyNamed(bucket, Suggested(bucket).value)
  {
    if |bucket| == 1 {
      assert bucket[0] in bucket;
    }
  }

  /** The target ends up with some defaults. */
  ghost predicate GetsDefaults(t: Spec, ports: seq<Port>) {
    t.defaults.Some? || exists k :: Suggested(BucketOf(ports, k)).Some?
  }

  /** A preset default must name a port behind its ingress; where nothing is preset the
      ports themselves must suggest one, or go by the empty name, as which a missing entry
      reads once there are defaults at all. */
  ghost predicate IngressServed(t: Spec, ports: seq<Port>, ingress: string) {
    var bucket := BucketOf(ports, ingress);
    if t.defaults.Some? && ingress in t.defaults.value then
      bucket != [] && AnyNamed(bucket, t.defaults.value[ingress])
    else bucket != [] ==> Suggested(bucket).Some? || (GetsDefaults(t, ports) && AnyNamed(bucket, ""))
  }

  ghost predicate IngressClean(t: Spec, ingress: string) {
    !ErrorHolds(t, NoDefaults(ingress)) && !ErrorHolds(t, NoSuchPort(ingress)) && !ErrorHolds(t, NoSuchIngress(ingress))
  }

  /** What the patches leave as an ingress's default. */
  lemma PatchedDefault(a: Spec, b: Spec, ingress: string)
    requires IsPatched(a, b)
    ensures var preset := a.defaults.Some? && ingress in a.defaults.value;
            var suggestion := Suggested(BucketOf(b.ports, ingress));
            && ((b.defaults.Some? && ingress in b.defaults.value) <==> preset || suggestion.Some?)
            && DefaultFor(b.defaults, ingress)
               == if preset then a.defaults.value[ingress] else if suggestion.Some? then suggestion.value else ""
  {
    var m :| AreSuggestions(m, b.ports) && b.defaults == Completed(a.defaults, m);
    assert ingress in m <==> Suggested(BucketOf(b.ports, ingress)).Some?;
  }

  lemma DefaultsArePresentWhen(a: Spec, b: Spec)
    requires IsPatched(a, b)
    ensures b.defaults.Some? <==> GetsDefaults(a, b.ports)
  {
    var m :| AreSuggestions(m, b.ports) && b.defaults == Completed(a.defaults, m);
    if k :| Suggested(BucketOf(b.ports, k)).Some? {
      assert k in m;
    } else {
      assert forall k :: k !in m;
      assert m == map[];
    }
  }

  lemma PatchedNames(ports: seq<Port>)
    requires NamedPorts(ports)
    ensures NamedPorts(PatchedPorts(ports))
  {
  }

  lemma CleanMeans(b: Spec, ingress: string)
    ensures var bucket, has := BucketOf(b.ports, ingress), b.defaults.Some? && ingress in b.defaults.value;
            IngressClean(b, ingress)
            <==> if bucket == [] then !has
                 else b.defaults.Some? && AnyNamed(bucket, DefaultFor(b.defaults, ingress))
  {
  }

  lemma IngressIsCleanWhenServed(a: Spec, b: Spec, ingress: string)
    requires IsPatched(a, b)
    ensures IngressClean(b, ingress) <==> IngressServed(a, b.ports, ingress)
  {
    var bucket := BucketOf(b.ports, ingress);
    CleanMeans(b, ingress);
    DefaultsArePresentWhen(a, b);
    PatchedDefault(a, b, ingress);
    if Suggested(bucket).Some? {
      SuggestionNamesAPort(bucket);
    }
  }

  /** The ingress checks accept a patched target exactly when each ingress is served. */
  lemma PatchedIsValidExactlyWhen(a: Spec, b: Spec)
    requires IsPatched(a, b)
    ensures IngressesValid(b) <==> forall ingress :: IngressServed(a, b.ports, ingress)
  {
    forall ingress ensures IngressClean(b, ingress) <==> IngressServed(a, b.ports, ingress) {
      IngressIsCleanWhenServed(a, b, ingress);
    }
    if IngressesValid(b) {
      forall ingress ensures IngressServed(a, b.ports, ingress) {
        assert IngressClean(b, ingress);
      }
    }
    if forall ingress :: IngressServed(a, b.ports, ingress) {
      forall e: IngressError ensures !ErrorHolds(b, e) {
        assert IngressServed(a, b.ports, e.ingress);
        assert IngressClean(b, e.ingress);
      }
    }
  }

  /** A single port, or an http port with none flagged as the default. */
  predicate DefaultIsObvious(bucket: seq<Entry>) {
    |bucket| == 1 || (AnyNamed(bucket, HTTP) && !AnyDefault(bucket))
  }

  /** Without presets, hidden ports and ports without a name, defaulting gets a target past the ingress checks
      exactly when the default is obvious behind every ingress. */
  lemma DefaultingSatisfiesValidation(a: Spec, b: Spec)
    requires IsPatched(a, b) && NamedPorts(a.ports)
    requires a.defaults.None? || a.defaults.value == map[]
    requires forall i :: 0 <= i < |a.ports| ==> !Hidden(a.ports[i])
    ensures IngressesValid(b)
       <==> forall ingress :: BucketOf(a.ports, ingress) != [] ==> DefaultIsObvious(BucketOf(a.ports, ingress))
  {
    PatchedIsValidExactlyWhen(a, b);
    BucketsAreKeptExactlyWhen(a.ports);
    PatchedNames(a.ports);
    forall ingress
      ensures IngressServed(a, b.ports, ingress)
         <==> (BucketOf(a.ports, ingress) != [] ==> DefaultIsObvious(BucketOf(a.ports, ingress)))
    {
      assert BucketOf(b.ports, ingress) == BucketOf(a.ports, ingress);
      EntriesAreNamed(b.ports, |b.ports|, ingress);
    }
  }
}
