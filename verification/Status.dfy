/** The metrics of a running relayer and the part of them that survives a restart. */
module Status {
  import opened Common

  const PERSISTED_METRICS := ["num batches", "num ethereum client requests", "num ethereum client transactions",
                              "ethereum last queried block number", "multiversx last queried block number",
                              "ethereum client status", "multiversx client status",
                              "ethereum client last encountered error", "multiversx client last encountered error",
                              "last block nonce"]

  datatype Metrics = Metrics(ints: map<string, int>, strings: map<string, string>)

  const EMPTY := Metrics(map[], map[])

  /** JSON, as far as it matters here: it may fail to read what it did not write. */
  datatype Marshaller = Marshaller(marshal: Metrics -> Bytes, unmarshal: Bytes -> Option<Metrics>) {
    ghost predicate RoundTrips() {
      forall m :: unmarshal(marshal(m)) == Some(m)
    }
  }

  predicate Persists(metric: string) {
    metric in PERSISTED_METRICS
  }

  function Restrict<V>(m: map<string, V>): map<string, V> {
    map k | k in m && Persists(k) :: m[k]
  }

  /** The part of the metrics that is written to the store. */
  function Persisted(m: Metrics): Metrics {
    Metrics(Restrict(m.ints), Restrict(m.strings))
  }

  /** What a new handler finds under its name. */
  function Load(js: Marshaller, disk: map<string, Bytes>, name: string): Metrics {
    if name !in disk then EMPTY
    else
      var read := js.unmarshal(disk[name]);
      if read.None? then EMPTY else Persisted(read.value)
  }

  datatype Update =
    | SetInt(metric: string, value: int)
    | AddInt(metric: string, delta: int)
    | SetString(metric: string, text: string)

  function Apply(m: Metrics, u: Update): Metrics {
    match u
    case SetInt(metric, value) => m.(ints := m.ints[metric := value])
    case AddInt(metric, delta) => m.(ints := m.ints[metric := (if metric in m.ints then m.ints[metric] else 0) + delta])
    case SetString(metric, text) => m.(strings := m.strings[metric := text])
  }

  /** The store after an update that left the handler with metrics `m`; the write may fail. */
  function DiskAfter(js: Marshaller, disk: map<string, Bytes>, name: string, m: Metrics, metric: string,
                     works: bool): map<string, Bytes>
  {
    if Persists(metric) && works then disk[name := js.marshal(Persisted(m))] else disk
  }

  // ------------------------------------------------------------- the handler

  method ShouldPersistMetric(metric: string) returns (found: bool)
    ensures found <==> Persists(metric)
  {
    for k := 0 to |PERSISTED_METRICS|
      invariant metric !in PERSISTED_METRICS[..k]
    {
      if PERSISTED_METRICS[k] == metric {
        return true;
      }
    }
    assert PERSISTED_METRICS[..|PERSISTED_METRICS|] == PERSISTED_METRICS;
    return false;
  }

  /** The filtering loop of convertToBuff and loadFromBuff; the keys come in any order. */
  method Needed<V>(m: map<string, V>) returns (needed: map<string, V>)
    ensures needed == Restrict(m)
  {
    needed := map[];
    var left := m.Keys;
    while left != {}
      invariant left <= m.Keys
      invariant needed == map k | k in m && k !in left && Persists(k) :: m[k]
      decreases left
    {
      var key :| key in left;
      left := left - {key};
      var persisted := ShouldPersistMetric(key);
      if !persisted {
        continue;
      }
      needed := needed[key := m[key]];
    }
  }

  class Storer {
    var data: map<string, Bytes>
  }

  class StatusHandler {
    const name: string
    const storer: Storer
    var ints: map<string, int>
    var strings: map<string, string>

    ghost function View(): Metrics
      reads this
    {
      Metrics(ints, strings)
    }

    /** A handler starts with what the store holds for it; nothing when that cannot be read. */
    constructor (js: Marshaller, name: string, storer: Storer, readable: bool)
      ensures this.name == name && this.storer == storer
      ensures View() == if readable then Load(js, storer.data, name) else EMPTY
    {
      this.name, this.storer := name, storer;
      ints, strings := map[], map[];
      new;
      if readable && name in storer.data {
        var read := js.unmarshal(storer.data[name]);
        if read.Some? {
          ints := Needed(read.value.ints);
          strings := Needed(read.value.strings);
        }
      }
    }

    method PersistChanges(js: Marshaller, metric: string, works: bool)
      modifies storer
      ensures storer.data == DiskAfter(js, old(storer.data), name, View(), metric, works)
    {
      var persisted := ShouldPersistMetric(metric);
      if !persisted {
        return;
      }
      var neededInts := Needed(ints);
      var neededStrings := Needed(strings);
      if works {
        storer.data := storer.data[name := js.marshal(Metrics(neededInts, neededStrings))];
      }
    }

    method SetIntMetric(js: Marshaller, metric: string, value: int, works: bool)
      modifies this, storer
      ensures View() == Apply(old(View()), SetInt(metric, value))
      ensures storer.data == DiskAfter(js, old(storer.data), name, View(), metric, works)
    {
      ints := ints[metric := value];
      PersistChanges(js, metric, works);
    }

    method AddIntMetric(js: Marshaller, metric: string, delta: int, works: bool)
      modifies this, storer
      ensures View() == Apply(old(View()), AddInt(metric, delta))
      ensures storer.data == DiskAfter(js, old(storer.data), name, View(), metric, works)
    {
      ints := ints[metric := (if metric in ints then ints[metric] else 0) + delta];
      PersistChanges(js, metric, works);
    }

    method SetStringMetric(js: Marshaller, metric: string, text: string, works: bool)
      modifies this, storer
      ensures View() == Apply(old(View()), SetString(metric, text))
      ensures storer.data == DiskAfter(js, old(storer.data), name, View(), metric, works)
    {
      strings := strings[metric := text];
      PersistChanges(js, metric, works);
    }
  }

  // ---------------------------------------------------------------- restarts

  /** Several handlers on one store, each under its own name. */
  datatype World = World(handlers: map<string, Metrics>, disk: map<string, Bytes>)

  datatype Event =
    | Updated(name: string, update: Update, works: bool)
    | Restarted(name: string, readable: bool)

  function Step(js: Marshaller, w: World, e: Event): World
    requires e.name in w.handlers
  {
    match e
    case Updated(name, u, works) =>
      var m := Apply(w.handlers[name], u);
      World(w.handlers[name := m], DiskAfter(js, w.disk, name, m, u.metric, works))
    case Restarted(name, readable) =>
      World(w.handlers[name := if readable then Load(js, w.disk, name) else EMPTY], w.disk)
  }

  ghost predicate IsRun(js: Marshaller, worlds: seq<World>, events: seq<Event>) {
    && |worlds| == |events| + 1
    && (forall name :: name in worlds[0].handlers ==> worlds[0].handlers[name] == Load(js, worlds[0].disk, name))
    && forall i :: 0 <= i < |events| ==>
         events[i].name in worlds[i].handlers && worlds[i + 1] == Step(js, worlds[i], events[i])
  }

  /** The event brings the store and the handler together. */
  predicate Syncs(e: Event, name: string) {
    e.name == name &&
    match e
    case Updated(_, u, works) => Persists(u.metric) && works
    case Restarted(_, readable) => readable
  }

  /** How many of the events it takes to include the last one of that kind. */
  function LastSync(events: seq<Event>, name: string): (k: nat)
    ensures k <= |events|
  {
    if events == [] then 0
    else if Syncs(events[|events| - 1], name) then |events|
    else LastSync(events[..|events| - 1], name)
  }

  lemma SyncAgrees(js: Marshaller, w: World, e: Event)
    requires js.RoundTrips() && e.name in w.handlers && Syncs(e, e.name)
    ensures Load(js, Step(js, w, e).disk, e.name) == Persisted(Step(js, w, e).handlers[e.name])
  {
  }

  lemma OthersKeepTheirShare(js: Marshaller, w: World, e: Event, name: string)
    requires e.name in w.handlers && name in w.handlers && !Syncs(e, name)
    ensures Load(js, Step(js, w, e).disk, name) == Load(js, w.disk, name)
  {
  }

  /** A restarted handler holds exactly the persistable part of what it held at its last successful write or restart. */
  lemma {:induction false} RestartFindsLastSync(js: Marshaller, worlds: seq<World>, events: seq<Event>, n: nat,
                                                name: string)
    requires js.RoundTrips() && IsRun(js, worlds, events) && n <= |events| && name in worlds[0].handlers
    ensures name in worlds[n].handlers && name in worlds[LastSync(events[..n], name)].handlers
    ensures Load(js, worlds[n].disk, name) == Persisted(worlds[LastSync(events[..n], name)].handlers[name])
  {
    if n == 0 {
    } else {
      RestartFindsLastSync(js, worlds, events, n - 1, name);
      assert events[..n][..n - 1] == events[..n - 1];
      if Syncs(events[n - 1], name) {
        SyncAgrees(js, worlds[n - 1], events[n - 1]);
      } else {
        OthersKeepTheirShare(js, worlds[n - 1], events[n - 1], name);
      }
    }
  }

  lemma UnpersistedUpdateKeepsShare(m: Metrics, u: Update)
    requires !Persists(u.metric)
    ensures Persisted(Apply(m, u)) == Persisted(m)
  {
  }

  /** With a store that always works a restart loses nothing of the persistable part. */
  lemma {:induction false} RestartLosesNothing(js: Marshaller, worlds: seq<World>, events: seq<Event>, n: nat,
                                               name: string)
    requires js.RoundTrips() && IsRun(js, worlds, events) && n <= |events| && name in worlds[0].handlers
    requires forall i :: 0 <= i < n ==> if events[i].Updated? then events[i].works else events[i].readable
    ensures name in worlds[n].handlers && Load(js, worlds[n].disk, name) == Persisted(worlds[n].handlers[name])
  {
    if n == 0 {
    } else {
      RestartLosesNothing(js, worlds, events, n - 1, name);
      var e := events[n - 1];
      if Syncs(e, name) {
        SyncAgrees(js, worlds[n - 1], e);
      } else {
        OthersKeepTheirShare(js, worlds[n - 1], e, name);
        if e.name == name {
          UnpersistedUpdateKeepsShare(worlds[n - 1].handlers[name], e.update);
        }
      }
    }
  }
}
