/**
 * cmd/catbus-bridge-lgtv/main.go: the rules by which the bridge turns bus
 * messages into TV calls and TV events into bus messages, and the key it
 * carries from one TV connection to the next.
 *
 * The bus client, the TV client and the clock are left out; each handler
 * is modelled as the decision it makes, and each message it publishes as
 * the text it publishes.
 */
module Bridge {
  import opened Wrappers
  import opened Api
  import opened Decimal
  import opened Strings
  import opened Messages
  import opened Correlation
  import opened Pairing
  import opened MapRange

  /** The volume the TV is asked for when `volume` arrives: never outside [0, 100]. */
  function Clamp(volume: int): (level: int)
    ensures 0 <= level <= 100
    ensures 0 <= volume <= 100 ==> level == volume
    ensures volume < 0 ==> level == 0
    ensures volume > 100 ==> level == 100
  {
    if volume < 0 then 0 else if volume > 100 then 100 else volume
  }

  /** The SetVolume call a volume payload leads to, if any. */
  function VolumeCall(payload: string): (call: Option<int>)
    ensures call.Some? <==> Atoi(payload).Some?
    ensures call.Some? ==> 0 <= call.value <= 100 && call.value == Clamp(Atoi(payload).value)
  {
    match Atoi(payload)
    case None => None
    case Some(v) => Some(Clamp(v))
  }

  /**
   * setVolume: a payload Atoi rejects is dropped; otherwise the value is
   * raised to 0 and lowered to 100, in that order, and sent to the TV.
   */
  method SetVolume(payload: string) returns (call: Option<int>)
    ensures call == VolumeCall(payload)
    ensures call.Some? <==> Atoi(payload).Some?
  {
    var parsed := Atoi(payload);
    if parsed.None? {
      return None;
    }
    var volume := parsed.value;
    if volume < 0 {
      volume := 0;
    }
    if volume > 100 {
      volume := 100;
    }
    return Some(volume);
  }

  /**
   * The volume events the bridge publishes come back to it on the same
   * topic: reading the published text sets the level it reports, clamped.
   */
  lemma VolumeEcho(level: int)
    requires MinInt64 <= level <= MaxInt64
    ensures VolumeCall(Format(level)) == Some(Clamp(level))
    ensures 0 <= level <= 100 ==> VolumeCall(Format(level)) == Some(level)
  {
    AtoiFormat(level);
  }

  /**
   * The stricter rule of the MQTT bridge variant: a payload that is not an
   * integer within [0, 100] is refused rather than clamped.
   */
  function StrictVolumeCall(payload: string): (call: Option<int>)
    ensures call.Some? <==> Atoi(payload).Some? && 0 <= Atoi(payload).value <= 100
    ensures call.Some? ==> call.value == Atoi(payload).value
  {
    match Atoi(payload)
    case Some(v) => if 0 <= v <= 100 then Some(v) else None
    case None => None
  }

  /** The two rules agree on every payload the strict one accepts, and differ exactly on integers out of range. */
  lemma StrictAgrees(payload: string)
    ensures StrictVolumeCall(payload).Some? ==> VolumeCall(payload) == StrictVolumeCall(payload)
    ensures StrictVolumeCall(payload) != VolumeCall(payload) <==>
      Atoi(payload).Some? && !(0 <= Atoi(payload).value <= 100)
  {
  }

  /** setApp: the app ID the config maps the payload's name to, or no call. */
  function AppCall(apps: map<string, string>, payload: string): (id: Option<string>)
    ensures id.Some? <==> payload in apps
    ensures id.Some? ==> id.value == apps[payload]
  {
    if payload in apps then Some(apps[payload]) else None
  }

  /** setPower: only "off" does anything, and only while the TV is connected. */
  function TurnsOff(payload: string, connected: bool): (call: bool)
    ensures call <==> payload == "off" && connected
  {
    match payload
    case "off" => connected
    case _ => false
  }

  /**
   * What cfg.AppNameForID may answer for `id`: some name the config maps
   * to `id`, or nothing when no name does.
   */
  ghost predicate NameLookup(apps: map<string, string>, id: string, found: Option<string>) {
    match found
    case Some(name) => name in apps && apps[name] == id
    case None => forall name :: name in apps ==> apps[name] != id
  }

  /** The app handler: the configured name for the app the TV reports, or its raw ID. */
  function PublishedName(id: string, found: Option<string>): (name: string)
    ensures found.Some? ==> name == found.value
    ensures found.None? ==> name == id
  {
    match found
    case Some(name) => name
    case None => id
  }

  /**
   * The app the bridge publishes comes back to it on the same topic:
   * a configured name launches the app the TV reported, and a raw ID that
   * is not itself a configured name launches nothing.
   */
  lemma AppEcho(apps: map<string, string>, id: string, found: Option<string>)
    requires NameLookup(apps, id, found)
    ensures found.Some? ==> AppCall(apps, PublishedName(id, found)) == Some(id)
    ensures found.None? && id !in apps ==> AppCall(apps, PublishedName(id, found)) == None
    ensures found.None? ==> PublishedName(id, found) == id
  {
  }

  /**
   * The retained app-values message: the config's app names, collected in
   * map order, sorted, and joined by newlines.
   */
  method AppValues(apps: map<string, string>, order: seq<string>) returns (text: string)
    requires IterationOrder(order, apps.Keys)
    ensures text == Join(Sort(order), "\n")
  {
    var appNames: seq<string> := [];
    for i := 0 to |order|
      invariant appNames == order[..i]
    {
      appNames := appNames + [order[i]];
    }
    assert appNames == order;
    var sorted := Sort(appNames);
    text := Join(sorted, "\n");
  }

  /**
   * The message does not depend on the order in which the map was visited,
   * lists each configured name once in strictly ascending order, and splits
   * back into those names when there is at least one and none contains a
   * newline; with none, the message is empty.
   */
  lemma AppValuesDeterministic(apps: map<string, string>, order: seq<string>, order': seq<string>)
    requires IterationOrder(order, apps.Keys) && IterationOrder(order', apps.Keys)
    ensures Sort(order) == Sort(order')
    ensures StrictlySorted(Sort(order))
    ensures forall name :: name in apps <==> name in Sort(order)
    ensures |apps| > 0 && (forall name :: name in apps ==> '\n' !in name) ==>
      Split(Join(Sort(order), "\n"), '\n') == Sort(order)
    // with no apps configured the message is empty and splits into one empty name
    ensures |apps| == 0 ==> Join(Sort(order), "\n") == "" && Split(Join(Sort(order), "\n"), '\n') == [""]
  {
    DistinctSorted(order);
    DistinctSorted(order');
    SameKeys(order, order', apps.Keys);
    StrictlySortedUnique(Sort(order), Sort(order'));
    var s := Sort(order);
    assert forall name :: name in s <==> name in multiset(order);
    if |apps| > 0 && (forall name :: name in apps ==> '\n' !in name) {
      assert |s| == |multiset(order)|;
      forall i | 0 <= i < |s|
        ensures '\n' !in s[i]
      {
        assert s[i] in multiset(order);
      }
      SplitJoin(s, '\n');
    }
  }

  /** Sorting the map's keys, which range visits once each, leaves no repeats. */
  lemma DistinctSorted(order: seq<string>)
    requires forall i, j :: 0 <= i < j < |order| ==> order[i] != order[j]
    ensures StrictlySorted(Sort(order))
  {
    var s := Sort(order);
    forall i, j | 0 <= i < j < |s|
      ensures s[i] != s[j]
    {
      if s[i] == s[j] {
        CountTwo(s, i, j);
        NoRepeats(order, s[i]);
        assert false;
      }
    }
    SortedDistinct(s);
  }

  /** An element found at two positions is counted at least twice. */
  lemma CountTwo(s: seq<string>, i: int, j: int)
    requires 0 <= i < j < |s| && s[i] == s[j]
    ensures multiset(s)[s[i]] >= 2
  {
    assert s == s[..j] + s[j..];
    assert s[i] in s[..j];
    assert s[j] in s[j..];
  }

  /** A sequence without repeats holds each of its elements once. */
  lemma {:induction false} NoRepeats(order: seq<string>, x: string)
    requires forall i, j :: 0 <= i < j < |order| ==> order[i] != order[j]
    ensures multiset(order)[x] <= 1
  {
    if |order| > 0 {
      var last := order[|order| - 1];
      var init := order[..|order| - 1];
      assert order == init + [last];
      NoRepeats(init, x);
      if x == last {
        assert x !in init;
      }
    }
  }

  /** Two orders of the same keys, each visiting every key once, hold the same strings. */
  lemma SameKeys(order: seq<string>, order': seq<string>, keys: set<string>)
    requires IterationOrder(order, keys) && IterationOrder(order', keys)
    ensures multiset(order) == multiset(order')
  {
    forall x
      ensures multiset(order)[x] == multiset(order')[x]
    {
      NoRepeats(order, x);
      NoRepeats(order', x);
      if x in keys {
        assert x in multiset(order) && x in multiset(order');
      } else {
        assert x !in multiset(order) && x !in multiset(order');
      }
    }
  }

  /**
   * One pass of the bridge's outer loop, as the TV answered it: the outcome
   * of each Connect attempt, and what the two receives of Register yielded.
   */
  datatype Connection = Connection(dials: seq<bool>, first: Received, second: Received)

  /**
   * The inner retry loop: Connect is called again after every failure, with
   * no ceiling. A pass the loop leaves has a successful attempt in it.
   */
  method ConnectUntilUp(dials: seq<bool>) returns (attempts: nat)
    requires true in dials
    ensures 0 < attempts <= |dials| && dials[attempts - 1]
    ensures forall j :: 0 <= j < attempts - 1 ==> !dials[j]
  {
    var i := 0;
    while !dials[i]
      invariant 0 <= i < |dials|
      invariant true in dials[i..]
      invariant forall j :: 0 <= j < i ==> !dials[j]
      decreases |dials| - i
    {
      assert dials[i..] == [dials[i]] + dials[i + 1..];
      i := i + 1;
    }
    attempts := i + 1;
  }

  /** The key the bridge holds after the passes `conns`, starting from the configured key. */
  function KeyAfter(key: string, conns: seq<Connection>): (held: string)
    // a pass whose first receive fails keeps the key of the passes before it
    ensures conns != [] && Outcome(conns[|conns| - 1].first).Failure? ==>
      held == KeyAfter(key, conns[..|conns| - 1])
  {
    if |conns| == 0 then key
    else
      var c := conns[|conns| - 1];
      RegisterOutcome(KeyAfter(key, conns[..|conns| - 1]), c.first, c.second).0
  }

  /**
   * The outer loop over the passes `conns`: connect, then register with the
   * key held so far and keep whatever key Register returns, error or not.
   */
  method Supervise(key: string, conns: seq<Connection>) returns (held: string)
    requires forall i :: 0 <= i < |conns| ==> true in conns[i].dials
    ensures held == KeyAfter(key, conns)
  {
    held := key;
    for i := 0 to |conns|
      invariant held == KeyAfter(key, conns[..i])
    {
      var c := conns[i];
      var _ := ConnectUntilUp(c.dials);
      // the error is only logged
      var outcome := RegisterOutcome(held, c.first, c.second);
      held := outcome.0;
      assert conns[..i + 1][..i] == conns[..i];
    }
    assert conns[..|conns|] == conns;
  }

  /** The pass's first receive succeeded without the TV accepting the key: it prompted. */
  predicate Prompted(c: Connection) {
    Outcome(c.first).Success? && c.first.rsp.kind != RegisteredType
  }

  /** The key only ever becomes one the TV sent as a client-key after prompting. */
  lemma {:induction false} KeyProvenance(key: string, conns: seq<Connection>)
    ensures var k := KeyAfter(key, conns);
      k == key || exists i :: (0 <= i < |conns| && Prompted(conns[i]) &&
        conns[i].second.Got? && DecodeClientKey(conns[i].second.rsp.payload) == Some(k))
  {
    if |conns| > 0 {
      var init := conns[..|conns| - 1];
      KeyProvenance(key, init);
      var k := KeyAfter(key, conns);
      if k != KeyAfter(key, init) {
        assert Prompted(conns[|conns| - 1]) && conns[|conns| - 1].second.Got?;
      } else if k != key {
        var i :| 0 <= i < |init| && Prompted(init[i]) && init[i].second.Got? && DecodeClientKey(init[i].second.rsp.payload) == Some(k);
        assert conns[i] == init[i];
      }
    }
  }

  /**
   * When every pass's registration fails at the first receive, or the TV
   * already accepts the key, the configured key is kept throughout.
   */
  lemma {:induction false} KeyKept(key: string, conns: seq<Connection>)
    requires forall i :: 0 <= i < |conns| ==>
      Outcome(conns[i].first).Failure? || conns[i].first.rsp.kind == RegisteredType
    ensures KeyAfter(key, conns) == key
  {
    if |conns| > 0 {
      var init := conns[..|conns| - 1];
      KeyKept(key, init);
    }
  }
}
