// Containers as captured, the create command a rollback issues for one, and what docker makes
// of that command.
module Containers {
  import opened Wrappers
  import opened OptionText

  // What is captured of a container. An empty source, network or directory is a missing one;
  // docker reports an empty source for a mount in memory.
  datatype Mount = Mount(kind: string, source: string, destination: string, writable: bool)
  datatype Ulimit = Ulimit(name: string, soft: Option<int>, hard: Option<int>)
  datatype DeviceRequest = DeviceRequest(driver: string, count: int, ids: seq<string>,
                                         capabilities: seq<seq<string>>, options: map<string, string>)

  datatype Host = Host(network: string, ipc: string, privileged: bool, shmSize: nat, readOnly: bool,
                       securityOpts: seq<string>, devices: seq<DeviceRequest>, ulimits: seq<Ulimit>)

  datatype Container = Container(name: string, image: string, command: seq<string>,
                                 labels: map<string, string>, environment: seq<string>,
                                 workingDir: string, mounts: seq<Mount>, host: Host, running: bool)

  function Running(c: Container, running: bool): Container {
    c.(running := running)
  }

  // The options of one create command, each with the text that follows its flag; None is an
  // option not given.
  datatype CreateOptions =
    CreateOptions(name: string, network: Option<string>, ipc: Option<string>, privileged: bool, shmSize: Option<nat>,
                  securityOpts: seq<string>, allGpus: bool, ulimits: seq<string>, readOnly: bool, labels: seq<string>,
                  environment: seq<string>, mounts: seq<string>, workingDir: Option<string>,
                  image: string, command: seq<string>)

  // ---- Labels: one text for key and value ----

  function LabelText(key: string, value: string): string {
    key + "=" + value
  }

  // The key docker takes a label's text to have.
  function Stem(key: string): string {
    Before(key, '=')
  }

  function LabelTexts(keys: seq<string>, labels: map<string, string>): seq<string>
    requires forall k :: k in keys ==> k in labels
  {
    seq(|keys|, i requires 0 <= i < |keys| => LabelText(keys[i], labels[keys[i]]))
  }

  // Docker cuts each text at its first equals sign; of equal keys the last counts.
  function LabelsRead(texts: seq<string>): map<string, string> {
    if texts == [] then map[]
    else
      var last := texts[|texts| - 1];
      LabelsRead(texts[..|texts| - 1])[Before(last, '=') := After(last, '=')]
  }

  lemma LabelCut(key: string, value: string)
    ensures Before(LabelText(key, value), '=') == Stem(key)
    ensures Stem(key) + "=" + After(LabelText(key, value), '=') == LabelText(key, value)
    ensures '=' !in Stem(key) && ('=' !in key ==> Stem(key) == key && After(LabelText(key, value), '=') == value)
  {
    BeforeMore(key, value, '=');
    Rejoined(LabelText(key, value), '=');
    Rejoined(key, '=');
    assert LabelText(key, value)[|key|] == '=';
    if '=' !in key {
      Joined(key, value, '=');
    }
  }

  // No other key with the same stem comes later.
  ghost predicate Topmost(keys: set<string>, k: string) {
    k in keys && forall j :: j in keys && Stem(j) == Stem(k) ==> Leq(j, k)
  }

  // What is read under a stem is what the last key with that stem says.
  lemma {:induction false} LabelsReadAt(keys: seq<string>, labels: map<string, string>, k: string)
    requires Ascending(keys) && (forall j :: j in keys ==> j in labels) && k in keys
    ensures Stem(k) in LabelsRead(LabelTexts(keys, labels))
    ensures (forall j :: j in keys && Stem(j) == Stem(k) ==> Leq(j, k)) ==>
              LabelsRead(LabelTexts(keys, labels))[Stem(k)] == After(LabelText(k, labels[k]), '=')
  {
    var front, last := keys[..|keys| - 1], keys[|keys| - 1];
    assert keys == front + [last];
    assert LabelTexts(keys, labels)[..|keys| - 1] == LabelTexts(front, labels);
    LabelCut(last, labels[last]);
    if Stem(last) == Stem(k) && k != last {
      var i :| 0 <= i < |keys| && keys[i] == k;
      assert Leq(keys[i], keys[|keys| - 1]);
      LeqTotal(k, last);
    } else if k != last {
      LabelsReadAt(front, labels, k);
    }
  }

  lemma {:induction false} LabelsReadOnly(keys: seq<string>, labels: map<string, string>, p: string)
    requires (forall j :: j in keys ==> j in labels) && p in LabelsRead(LabelTexts(keys, labels))
    ensures '=' !in p && exists k :: k in keys && Stem(k) == p
  {
    var front, last := keys[..|keys| - 1], keys[|keys| - 1];
    assert keys == front + [last];
    assert LabelTexts(keys, labels)[..|keys| - 1] == LabelTexts(front, labels);
    LabelCut(last, labels[last]);
    if p != Stem(last) {
      LabelsReadOnly(front, labels, p);
    } else {
      assert last in keys;
    }
  }

  // What a rollback passes for a set of labels: sorted by key.
  ghost function LabelOptions(labels: map<string, string>): seq<string> {
    SortedIs(labels.Keys);
    LabelTexts(Sorted(labels.Keys), labels)
  }

  // Exactly the labels docker reports unchanged: nothing comes from the image that was not
  // captured, and a key with an equals sign, which is cut in two, is in the image too and leaves
  // the label it turns into as it is.
  ghost predicate LabelsKept(labels: map<string, string>, base: map<string, string>) {
    && base.Keys <= labels.Keys
    && forall k :: k in labels && '=' in k ==>
         && k in base && base[k] == labels[k] && Stem(k) in labels
         && (Topmost(labels.Keys, k) ==> LabelText(k, labels[k]) == LabelText(Stem(k), labels[Stem(k)]))
  }

  lemma StemTop(labels: map<string, string>, p: string) returns (k: string)
    requires exists j :: j in labels && Stem(j) == p
    ensures Topmost(labels.Keys, k) && Stem(k) == p
    ensures p in LabelsRead(LabelOptions(labels))
    ensures LabelsRead(LabelOptions(labels))[p] == After(LabelText(k, labels[k]), '=')
  {
    var same := set j | j in labels && Stem(j) == p;
    var one :| one in labels && Stem(one) == p;
    assert one in same;
    Extremes(same);
    k :| IsGreatest(same, k);
    SortedIs(labels.Keys);
    LabelsReadAt(Sorted(labels.Keys), labels, k);
  }

  lemma StemsOnly(labels: map<string, string>, p: string)
    requires p in LabelsRead(LabelOptions(labels))
    ensures '=' !in p && exists k :: k in labels && Stem(k) == p
  {
    SortedIs(labels.Keys);
    LabelsReadOnly(Sorted(labels.Keys), labels, p);
  }

  // What docker reports for one key, when nothing but the captured labels is to be seen.
  lemma LabelAt(labels: map<string, string>, base: map<string, string>, k: string)
    requires LabelsKept(labels, base)
    ensures var now := base + LabelsRead(LabelOptions(labels));
      (k in now <==> k in labels) && (k in labels ==> now[k] == labels[k])
  {
    var read := LabelsRead(LabelOptions(labels));
    if k in read {
      StemsOnly(labels, k);
      var j :| j in labels && Stem(j) == k;
      LabelCut(j, labels[j]);
      var top := StemTop(labels, k);
      LabelCut(top, labels[top]);
      LabelCut(k, labels[k]);
    } else if k in labels {
      LabelCut(k, labels[k]);
      if '=' !in k {
        var top := StemTop(labels, k);
      }
    }
  }

  lemma LabelsKeptIff(labels: map<string, string>, base: map<string, string>)
    ensures LabelsKept(labels, base) <==> base + LabelsRead(LabelOptions(labels)) == labels
  {
    var read := LabelsRead(LabelOptions(labels));
    var now := base + read;
    if LabelsKept(labels, base) {
      forall k
        ensures (k in now <==> k in labels) && (k in labels ==> now[k] == labels[k])
      {
        LabelAt(labels, base, k);
      }
      assert now.Keys == labels.Keys;
    }
    if now == labels {
      assert base.Keys <= now.Keys;
      forall k | k in labels && '=' in k
        ensures k in base && base[k] == labels[k] && Stem(k) in labels
        ensures Topmost(labels.Keys, k) ==> LabelText(k, labels[k]) == LabelText(Stem(k), labels[Stem(k)])
      {
        if k in read {
          StemsOnly(labels, k);
        }
        var top := StemTop(labels, Stem(k));
        LabelCut(k, labels[k]);
        assert Stem(k) in now;
        if Topmost(labels.Keys, k) {
          LeqTotal(top, k);
          assert LabelText(Stem(k), labels[Stem(k)]) == Stem(k) + "=" + After(LabelText(k, labels[k]), '=');
        }
      }
    }
  }

  // ---- Mounts: comma-separated fields in one text ----

  function MountText(m: Mount): string {
    "type=" + m.kind + ",src=" + m.source + ",dst=" + m.destination + (if m.writable then "" else ",readonly")
  }

  // One field changes one part of the mount; None for a field docker does not know.
  function FieldRead(field: string, m: Mount): Option<Mount> {
    var key, value := Before(field, '='), After(field, '=');
    if key == "type" then Some(m.(kind := value))
    else if key == "src" || key == "source" then Some(m.(source := value))
    else if key == "dst" || key == "destination" || key == "target" then Some(m.(destination := value))
    else if field == "readonly" || field == "ro" then Some(m.(writable := false))
    else None
  }

  function FieldsRead(fields: seq<string>, m: Mount): Option<Mount> {
    if fields == [] then Some(m)
    else
      var next := FieldRead(fields[0], m);
      if next.None? then None else FieldsRead(fields[1..], next.value)
  }

  // Docker reads the text as one line of comma-separated values. It refuses a quote inside a
  // field and ignores what follows a line break, so a text with either never gives the mount back.
  function MountRead(text: string): Option<Mount> {
    if '"' in text || '\n' in text then None else FieldsRead(Fields(text, ','), Mount("volume", "", "", true))
  }

  // The characters that a mount cannot contain and come back.
  predicate PlainText(s: string) {
    ',' !in s && '"' !in s && '\n' !in s
  }

  predicate PlainMount(m: Mount) {
    PlainText(m.kind) && PlainText(m.source) && PlainText(m.destination)
  }

  predicate CommaFree(m: Mount) {
    ',' !in m.kind && ',' !in m.source && ',' !in m.destination
  }

  lemma KeyedField(key: string, value: string, sep: string)
    requires sep == key + "=" && '=' !in key && ',' !in key
    ensures Before(sep + value, '=') == key && After(sep + value, '=') == value
    ensures ',' !in value ==> ',' !in sep + value
  {
    Joined(key, value, '=');
    assert sep + value == key + ['='] + value;
  }

  // The text of a plain mount has its three or four fields.
  lemma MountFields(m: Mount)
    requires PlainMount(m)
    ensures Fields(MountText(m), ',') ==
              ["type=" + m.kind] + (["src=" + m.source]
                  + (["dst=" + m.destination] + if m.writable then [] else ["readonly"]))
  {
    var a, b, c := "type=" + m.kind, "src=" + m.source, "dst=" + m.destination;
    KeyedField("type", m.kind, "type=");
    KeyedField("src", m.source, "src=");
    KeyedField("dst", m.destination, "dst=");
    MountParts(m, a, b, c);
    ThreeFields(a, b, c, m.writable);
  }

  lemma MountParts(m: Mount, a: string, b: string, c: string)
    requires a == "type=" + m.kind && b == "src=" + m.source && c == "dst=" + m.destination
    ensures MountText(m) == a + [','] + (b + [','] + (c + if m.writable then "" else ",readonly"))
  {
  }

  lemma ThreeFields(a: string, b: string, c: string, writable: bool)
    requires ',' !in a && ',' !in b && ',' !in c
    ensures Fields(a + [','] + (b + [','] + (c + if writable then "" else ",readonly")), ',') ==
              [a] + ([b] + ([c] + if writable then [] else ["readonly"]))
  {
    var tail := c + if writable then "" else ",readonly";
    LastFields(c, tail, writable, ",readonly", "readonly");
    FieldsJoined(b, tail, ',');
    FieldsJoined(a, b + [','] + tail, ',');
  }

  lemma LastFields(c: string, tail: string, writable: bool, flag: string, last: string)
    requires ',' !in c && ',' !in last && flag == [','] + last && tail == c + if writable then "" else flag
    ensures Fields(tail, ',') == [c] + if writable then [] else [last]
  {
    if writable {
      assert tail == c;
    } else {
      assert tail == c + [','] + last;
      FieldsJoined(c, last, ',');
    }
  }

  // Each kind of field sets its part.
  lemma KeyedFieldRead(m: Mount, value: string)
    ensures FieldRead("type=" + value, m) == Some(m.(kind := value))
    ensures FieldRead("src=" + value, m) == Some(m.(source := value))
    ensures FieldRead("dst=" + value, m) == Some(m.(destination := value))
  {
    KeyedField("type", value, "type=");
    KeyedField("src", value, "src=");
    KeyedField("dst", value, "dst=");
  }

  lemma ReadOnlyField(m: Mount, field: string)
    requires field == "readonly"
    ensures FieldRead(field, m) == Some(m.(writable := false))
  {
    Rejoined(field, '=');
  }

  lemma MountBack(m: Mount)
    requires PlainMount(m)
    ensures MountRead(MountText(m)) == Some(m)
  {
    var m0 := Mount("volume", "", "", true);
    var m1 := m0.(kind := m.kind);
    var m2 := m1.(source := m.source);
    var m3 := m2.(destination := m.destination);
    var a, b, c := "type=" + m.kind, "src=" + m.source, "dst=" + m.destination;
    var rest := if m.writable then [] else ["readonly"];
    MountFields(m);
    KeyedFieldRead(m0, m.kind);
    KeyedFieldRead(m1, m.source);
    KeyedFieldRead(m2, m.destination);
    ReadOneField(a, [b] + ([c] + rest), m0, m1);
    ReadOneField(b, [c] + rest, m1, m2);
    ReadOneField(c, rest, m2, m3);
    LastField(m3, m, rest);
    PlainTextOf(m);
  }

  lemma LastField(m3: Mount, m: Mount, rest: seq<string>)
    requires m3 == m.(writable := true) && rest == if m.writable then [] else ["readonly"]
    ensures FieldsRead(rest, m3) == Some(m)
  {
    if !m.writable {
      var field := "readonly";
      ReadOnlyField(m3, field);
      assert rest == [field] + [];
      ReadOneField(field, [], m3, m);
    }
  }

  lemma PlainTextOf(m: Mount)
    requires PlainMount(m)
    ensures '"' !in MountText(m) && '\n' !in MountText(m)
  {
  }

  lemma ReadOneField(field: string, rest: seq<string>, m: Mount, next: Mount)
    requires FieldRead(field, m) == Some(next)
    ensures FieldsRead([field] + rest, m) == FieldsRead(rest, next)
  {
    assert ([field] + rest)[1..] == rest;
  }

  // No comma is left in what is read.
  lemma {:induction false} FieldsLackCommas(fields: seq<string>, m: Mount)
    requires CommaFree(m) && (forall i :: 0 <= i < |fields| ==> ',' !in fields[i]) && FieldsRead(fields, m).Some?
    ensures CommaFree(FieldsRead(fields, m).value)
  {
    if fields != [] {
      PartsLack(fields[0], '=', ',');
      FieldsLackCommas(fields[1..], FieldRead(fields[0], m).value);
    }
  }

  lemma ReadLacksCommas(text: string)
    requires MountRead(text).Some?
    ensures CommaFree(MountRead(text).value)
  {
    forall i | 0 <= i < |Fields(text, ',')|
      ensures ',' !in Fields(text, ',')[i]
    {
      FieldsLack(text, ',', i);
    }
    FieldsLackCommas(Fields(text, ','), Mount("volume", "", "", true));
  }

  function MountTexts(mounts: seq<Mount>): seq<string> {
    seq(|mounts|, i requires 0 <= i < |mounts| => MountText(mounts[i]))
  }

  predicate AllMountsRead(texts: seq<string>) {
    forall i :: 0 <= i < |texts| ==> MountRead(texts[i]).Some?
  }

  function MountsRead(texts: seq<string>): seq<Mount>
    requires AllMountsRead(texts)
  {
    seq(|texts|, i requires 0 <= i < |texts| => MountRead(texts[i]).value)
  }

  predicate MountsPlain(mounts: seq<Mount>) {
    forall i :: 0 <= i < |mounts| ==> PlainMount(mounts[i])
  }

  // The mounts come back, in whatever order, exactly when none of their texts contains a comma,
  // a quote or a line break.
  lemma MountsKeptIff(mounts: seq<Mount>)
    ensures MountsPlain(mounts) <==>
              AllMountsRead(MountTexts(mounts)) && multiset(MountsRead(MountTexts(mounts))) == multiset(mounts)
    ensures MountsPlain(mounts) ==> MountsRead(MountTexts(mounts)) == mounts
  {
    var texts := MountTexts(mounts);
    if MountsPlain(mounts) {
      forall i | 0 <= i < |mounts|
        ensures MountRead(texts[i]) == Some(mounts[i])
      {
        MountBack(mounts[i]);
      }
      assert MountsRead(texts) == mounts;
    }
    if AllMountsRead(texts) && multiset(MountsRead(texts)) == multiset(mounts) {
      forall i | 0 <= i < |mounts|
        ensures PlainMount(mounts[i])
      {
        assert MountRead(texts[i]).Some?;
        WithoutBreaks(mounts[i]);
        assert mounts[i] in multiset(MountsRead(texts));
        var j :| 0 <= j < |texts| && MountsRead(texts)[j] == mounts[i];
        ReadLacksCommas(texts[j]);
      }
    }
  }

  lemma WithoutBreaks(m: Mount)
    requires '"' !in MountText(m) && '\n' !in MountText(m)
    ensures CommaFree(m) ==> PlainMount(m)
  {
    forall c | c in m.kind || c in m.source || c in m.destination
      ensures c in MountText(m)
    {
    }
  }

  // ---- Ulimits: name, soft and hard limit in one text ----

  function UlimitText(name: string, soft: int, hard: int): string {
    name + "=" + Decimal(soft) + ":" + Decimal(hard)
  }

  function UlimitRead(text: string): Option<Ulimit> {
    var limits := After(text, '=');
    var soft, hard := ReadInt(Before(limits, ':')), ReadInt(After(limits, ':'));
    if soft.None? || hard.None? then None else Some(Ulimit(Before(text, '='), soft, hard))
  }

  lemma UlimitBack(name: string, soft: int, hard: int)
    requires '=' !in name
    ensures UlimitRead(UlimitText(name, soft, hard)) == Some(Ulimit(name, Some(soft), Some(hard)))
  {
    var limits := Decimal(soft) + ":" + Decimal(hard);
    assert UlimitText(name, soft, hard) == name + "=" + limits;
    DecimalRead(soft);
    DecimalRead(hard);
    Joined(name, limits, '=');
    Joined(Decimal(soft), Decimal(hard), ':');
  }

  predicate GoodUlimit(u: Ulimit) {
    u.name != "" && u.hard.Some?
  }

  function UlimitOption(u: Ulimit): string
    requires GoodUlimit(u)
  {
    UlimitText(u.name, if u.soft.Some? then u.soft.value else u.hard.value, u.hard.value)
  }

  function UlimitTexts(limits: seq<Ulimit>): seq<string>
    requires forall i :: 0 <= i < |limits| ==> GoodUlimit(limits[i])
  {
    seq(|limits|, i requires 0 <= i < |limits| => UlimitOption(limits[i]))
  }

  predicate AllUlimitsRead(texts: seq<string>) {
    forall i :: 0 <= i < |texts| ==> UlimitRead(texts[i]).Some?
  }

  function UlimitsRead(texts: seq<string>): seq<Ulimit>
    requires AllUlimitsRead(texts)
  {
    seq(|texts|, i requires 0 <= i < |texts| => UlimitRead(texts[i]).value)
  }

  predicate UlimitsPlain(limits: seq<Ulimit>) {
    forall i :: 0 <= i < |limits| ==> limits[i].soft.Some? && '=' !in limits[i].name
  }

  // Ulimits come back exactly when each has its soft limit and no equals sign in its name.
  lemma UlimitsKeptIff(limits: seq<Ulimit>)
    requires forall i :: 0 <= i < |limits| ==> GoodUlimit(limits[i])
    ensures UlimitsPlain(limits) <==> AllUlimitsRead(UlimitTexts(limits)) && UlimitsRead(UlimitTexts(limits)) == limits
  {
    var texts := UlimitTexts(limits);
    if UlimitsPlain(limits) {
      forall i | 0 <= i < |limits|
        ensures UlimitRead(texts[i]) == Some(limits[i])
      {
        UlimitBack(limits[i].name, limits[i].soft.value, limits[i].hard.value);
      }
      assert UlimitsRead(texts) == limits;
    }
    if AllUlimitsRead(texts) && UlimitsRead(texts) == limits {
      forall i | 0 <= i < |limits|
        ensures limits[i].soft.Some? && '=' !in limits[i].name
      {
        assert UlimitsRead(texts)[i] == limits[i];
        Rejoined(texts[i], '=');
      }
    }
  }

  // ---- Environment ----

  // The variable an entry sets.
  function Variable(entry: string): string {
    Before(entry, '=')
  }

  // A bare name takes the value it has where the command is issued, if it has one.
  function EntryRead(entry: string, client: map<string, string>): string {
    if '=' !in entry && entry in client then entry + "=" + client[entry] else entry
  }

  function EntriesRead(entries: seq<string>, client: map<string, string>): seq<string> {
    seq(|entries|, i requires 0 <= i < |entries| => EntryRead(entries[i], client))
  }

  predicate Sets(entries: seq<string>, variable: string) {
    exists i :: 0 <= i < |entries| && Variable(entries[i]) == variable
  }

  // The entries of base whose variables the given ones do not set.
  function Unset(base: seq<string>, given: seq<string>): seq<string> {
    if base == [] then []
    else (if Sets(given, Variable(base[0])) then [] else [base[0]]) + Unset(base[1..], given)
  }

  lemma {:induction false} UnsetNone(base: seq<string>, given: seq<string>)
    ensures Unset(base, given) == [] <==> forall i :: 0 <= i < |base| ==> Sets(given, Variable(base[i]))
  {
    if base != [] {
      UnsetNone(base[1..], given);
      assert forall i :: 0 < i < |base| ==> base[i] == base[1..][i - 1];
      assert forall i :: 0 <= i < |base| - 1 ==> base[1..][i] == base[i + 1];
    }
  }

  // Exactly the entries that come back: no bare name has a value at the client, and the image
  // sets no variable beside them.
  predicate EntriesKept(entries: seq<string>, base: seq<string>, client: map<string, string>) {
    && (forall i :: 0 <= i < |entries| ==> '=' in entries[i] || entries[i] !in client)
    && forall i :: 0 <= i < |base| ==> Sets(entries, Variable(base[i]))
  }

  lemma EntriesKeptIff(entries: seq<string>, base: seq<string>, client: map<string, string>)
    ensures var read := EntriesRead(entries, client);
      EntriesKept(entries, base, client) <==> read + Unset(base, read) == entries
  {
    var read := EntriesRead(entries, client);
    var more := Unset(base, read);
    UnsetNone(base, read);
    assert |read + more| == |entries| + |more|;
    if EntriesKept(entries, base, client) {
      assert read == entries;
      assert read + more == entries;
    }
    if read + more == entries {
      assert more == [] && read == entries;
      forall i | 0 <= i < |entries|
        ensures '=' in entries[i] || entries[i] !in client
      {
        assert read[i] == entries[i];
      }
    }
  }

  // ---- What docker makes of a create command ----

  // What a request for all GPUs looks like afterwards.
  const ALL_GPUS := DeviceRequest("", -1, [], [["gpu"]], map[])

  // What an image brings along for whatever is not given.
  datatype Image = Image(command: seq<string>, labels: map<string, string>, environment: seq<string>,
                         workingDir: string)

  // Docker refuses some commands. Of the others it reads labels, mounts, ulimits and environment
  // as above and reports everything else as it was given; for what is not given it reports its
  // own settings, or those of the image.
  datatype Docker = Docker(accepts: CreateOptions -> bool, client: map<string, string>,
                           network: string, ipc: string, shmSize: nat, image: string -> Image)
  {
    function Created(o: CreateOptions): Option<Container> {
      if !accepts(o) || !AllMountsRead(o.mounts) || !AllUlimitsRead(o.ulimits) then None
      else
        var base := image(o.image);
        var read := EntriesRead(o.environment, client);
        Some(Container(o.name, o.image, Or(o.command, base.command), base.labels + LabelsRead(o.labels),
                       read + Unset(base.environment, read), Filled(o.workingDir, base.workingDir),
                           MountsRead(o.mounts),
                       Host(Filled(o.network, network), Filled(o.ipc, ipc), o.privileged, Filled(o.shmSize, shmSize),
                            o.readOnly,
                            o.securityOpts, if o.allGpus then [ALL_GPUS] else [], UlimitsRead(o.ulimits)),
                       false))
    }
  }

  function Filled<T>(given: Option<T>, own: T): T {
    if given.Some? then given.value else own
  }

  function Or(given: seq<string>, own: seq<string>): seq<string> {
    if given == [] then own else given
  }

  // ---- What a rollback asks for ----

  predicate GoodEnv(entry: string) {
    entry != "" && '\0' !in entry
  }

  predicate GoodMount(m: Mount) {
    m.source != "" && m.destination != ""
  }

  predicate GoodLabels(labels: map<string, string>) {
    forall key :: key in labels ==> key != "" && labels[key] != ""
  }

  // What a rollback does not refuse, after it has removed what it found.
  predicate Complete(was: Container) {
    && (forall i :: 0 <= i < |was.host.securityOpts| ==> was.host.securityOpts[i] != "")
    && (forall i :: 0 <= i < |was.host.ulimits| ==> GoodUlimit(was.host.ulimits[i]))
    && GoodLabels(was.labels)
    && (forall i :: 0 <= i < |was.environment| ==> GoodEnv(was.environment[i]))
    && (forall i :: 0 <= i < |was.mounts| ==> GoodMount(was.mounts[i]))
  }

  predicate WantsGpus(devices: seq<DeviceRequest>) {
    exists i :: 0 <= i < |devices| && devices[i].count == -1
  }

  function Given(value: string): Option<string> {
    if value == "" then None else Some(value)
  }

  function GivenSize(size: nat): Option<nat> {
    if size == 0 then None else Some(size)
  }

  // The options a rollback passes for a captured container.
  ghost function RollbackOptions(was: Container): Option<CreateOptions> {
    if !Complete(was) then None
    else
      Some(CreateOptions(was.name, Given(was.host.network), Given(was.host.ipc), was.host.privileged,
                         GivenSize(was.host.shmSize),
                         was.host.securityOpts, WantsGpus(was.host.devices), UlimitTexts(was.host.ulimits),
                             was.host.readOnly,
                         LabelOptions(was.labels), was.environment, MountTexts(was.mounts), Given(was.workingDir),
                         was.image, was.command))
  }

  // The container that a rollback creates, if it does.
  ghost function Recreated(d: Docker, was: Container): Option<Container> {
    var options := RollbackOptions(was);
    if options.None? then None else d.Created(options.value)
  }

  // The container after it was created anew, and started if it ran.
  ghost function BroughtBack(d: Docker, was: Container): Container {
    var c := Recreated(d, was);
    if c.Some? then Running(c.value, was.running) else was
  }

  // What the final check of a rollback compares.
  predicate Matches(now: Container, was: Container) {
    && now.name == was.name && now.image == was.image && now.command == was.command && now.labels == was.labels
    && now.environment == was.environment && now.workingDir == was.workingDir
    && multiset(now.mounts) == multiset(was.mounts)
    && now.host.network == was.host.network && now.host.ipc == was.host.ipc
    && now.host.privileged == was.host.privileged
    && now.host.shmSize == was.host.shmSize && now.host.readOnly == was.host.readOnly
    && now.host.securityOpts == was.host.securityOpts && now.host.ulimits == was.host.ulimits
    && now.host.devices == was.host.devices
    && now.running == was.running
  }

  // ---- Which containers come back ----

  // What was missing is missing again.
  predicate NothingFilled(d: Docker, was: Container) {
    && (was.host.network == "" ==> d.network == "") && (was.host.ipc == "" ==> d.ipc == "")
    && (was.host.shmSize == 0 ==> d.shmSize == 0)
    && (was.command == [] ==> d.image(was.image).command == [])
    && (was.workingDir == "" ==> d.image(was.image).workingDir == "")
  }

  // Exactly the captured containers that a rollback can bring back: nothing in them is refused,
  // nothing missing is filled in, every text is read as it was meant, and GPUs are requested all
  // or not at all.
  ghost predicate Recreatable(d: Docker, was: Container) {
    && Complete(was) && d.accepts(RollbackOptions(was).value) && NothingFilled(d, was)
    && LabelsKept(was.labels, d.image(was.image).labels)
    && EntriesKept(was.environment, d.image(was.image).environment, d.client)
    && MountsPlain(was.mounts) && UlimitsPlain(was.host.ulimits)
    && (was.host.devices == [] || was.host.devices == [ALL_GPUS])
  }

  lemma RecreatableIff(d: Docker, was: Container)
    ensures Recreatable(d, was) <==> Recreated(d, was).Some? && Matches(BroughtBack(d, was), was)
    ensures Recreatable(d, was) ==> BroughtBack(d, was) == was
  {
    if Complete(was) && d.accepts(RollbackOptions(was).value) {
      MountsKeptIff(was.mounts);
      UlimitsKeptIff(was.host.ulimits);
      if AllMountsRead(MountTexts(was.mounts)) && AllUlimitsRead(UlimitTexts(was.host.ulimits)) {
        var now := BroughtBack(d, was);
        FilledIff(d, was, now);
        LabelsKeptIff(was.labels, d.image(was.image).labels);
        EntriesKeptIff(was.environment, d.image(was.image).environment, d.client);
        GpusKept(was.host.devices);
        if Recreatable(d, was) {
          assert now.host == was.host;
        }
      }
    }
  }

  // The parts that docker or the image may fill in.
  lemma FilledIff(d: Docker, was: Container, now: Container)
    requires now.command == Or(was.command, d.image(was.image).command)
    requires now.workingDir == Filled(Given(was.workingDir), d.image(was.image).workingDir)
    requires now.host.network == Filled(Given(was.host.network), d.network)
    requires now.host.ipc == Filled(Given(was.host.ipc), d.ipc)
    requires now.host.shmSize == Filled(GivenSize(was.host.shmSize), d.shmSize)
    ensures NothingFilled(d, was) <==>
              && now.command == was.command && now.workingDir == was.workingDir && now.host.network == was.host.network
              && now.host.ipc == was.host.ipc && now.host.shmSize == was.host.shmSize
  {
  }

  // All GPUs or none is what a create command can ask for.
  lemma GpusKept(devices: seq<DeviceRequest>)
    ensures (if WantsGpus(devices) then [ALL_GPUS] else []) == devices <==> devices == [] || devices == [ALL_GPUS]
  {
    if devices == [ALL_GPUS] {
      assert devices[0].count == -1;
    }
  }

  // Two containers that differ in a label, or in a mount, for which the same command is issued;
  // docker cannot bring back both.
  lemma SameCommand(was: Container)
    ensures RollbackOptions(was.(labels := map["a=b" := "c"])) == RollbackOptions(was.(labels := map["a" := "b=c"]))
    ensures RollbackOptions(was.(mounts := [Mount("bind", "/a", "/b,dst=/c", true)])) ==
            RollbackOptions(was.(mounts := [Mount("bind", "/a,dst=/b", "/c", true)]))
  {
    var one: map<string, string>, two: map<string, string> := map["a=b" := "c"], map["a" := "b=c"];
    SingleLabel("a=b", "c");
    SingleLabel("a", "b=c");
    assert LabelText("a=b", "c") == LabelText("a", "b=c");
    assert one["a=b"] == "c" && two["a"] == "b=c";
    assert GoodLabels(one) && GoodLabels(two);
    var x, y := Mount("bind", "/a", "/b,dst=/c", true), Mount("bind", "/a,dst=/b", "/c", true);
    assert MountText(x) == MountText(y);
    assert MountTexts([x]) == [MountText(x)] == MountTexts([y]);
    assert GoodMount([x][0]) && GoodMount([y][0]);
  }

  lemma SingleLabel(key: string, value: string)
    ensures LabelOptions(map[key := value]) == [LabelText(key, value)]
  {
    var labels := map[key := value];
    assert labels.Keys == {key};
    LeqTotal(key, key);
    LeastUnique({key}, key);
    assert {key} - {key} == {};
    assert Sorted({key}) == [key];
  }
}
