/** The presence encoder: a `RichPresence` becomes the SET_ACTIVITY command envelope. */
module Presence {
  import opened Base
  import opened Json
  import opened Text

  datatype Image = Image(key: string, text: string)
  /** `Label` is a Dafny keyword, so the button text is called `caption` here. */
  datatype Button = Button(url: string, caption: string)

  /**
   * What the caller wants shown. Timestamps are given as the seconds that
   * `AL::Timestamp::ToSeconds` yields; zero means "not set".
   */
  datatype RichPresence = RichPresence(
    header: string,
    details: string,
    buttons: seq<Button>,
    timeStart: nat,
    timeEnd: nat,
    imageLarge: Image,
    imageSmall: Image)

  const Activity: seq<string> := ["args", "activity"]

  function ButtonJson(b: Button): Json {
    JObject(map["url" := JString(b.url), "label" := JString(b.caption)])
  }

  /** The `buttons` array: one `{url, label}` object per button, in the caller's order. */
  function ButtonsJson(bs: seq<Button>): (r: seq<Json>)
    ensures |r| == |bs|
    ensures forall i :: 0 <= i < |bs| ==> r[i] == ButtonJson(bs[i])
  {
    seq(|bs|, i requires 0 <= i < |bs| => ButtonJson(bs[i]))
  }

  /** A map with the single entry `key: s` when `s` is non-empty, else an empty map. */
  function IfText(key: string, s: string): map<string, Json> {
    if |s| != 0 then map[key := JString(s)] else map[]
  }

  /** A map with the single entry `key: n` when `n` is non-zero, else an empty map. */
  function IfSeconds(key: string, n: nat): map<string, Json> {
    if n != 0 then map[key := JInt(n)] else map[]
  }

  /** The member `group: {members}` when `present`, else nothing. */
  function Wrap(group: string, members: map<string, Json>, present: bool): map<string, Json> {
    if present then map[group := JObject(members)] else map[]
  }

  function AssetFields(p: RichPresence): map<string, Json> {
    IfText("large_image", p.imageLarge.key) + IfText("large_text", p.imageLarge.text)
      + IfText("small_image", p.imageSmall.key) + IfText("small_text", p.imageSmall.text)
  }

  /** Whether any of the four asset assignments happens. */
  predicate HasAssets(p: RichPresence) {
    |p.imageLarge.key| != 0 || |p.imageLarge.text| != 0 || |p.imageSmall.key| != 0 || |p.imageSmall.text| != 0
  }

  function TimestampFields(p: RichPresence): map<string, Json> {
    IfSeconds("start", p.timeStart) + IfSeconds("end", p.timeEnd)
  }

  /** Whether either timestamp assignment happens. */
  predicate HasTimestamps(p: RichPresence) {
    p.timeStart != 0 || p.timeEnd != 0
  }

  function ButtonsMember(bs: seq<Button>): map<string, Json> {
    if |bs| != 0 then map["buttons" := JArray(ButtonsJson(bs))] else map[]
  }

  /** The `activity` object: each optional group present only when something is assigned into it. */
  function ActivityJson(p: RichPresence): Json {
    JObject(
      map["details" := JString(p.header), "state" := JString(p.details)]
      + Wrap("assets", AssetFields(p), HasAssets(p))
      + ButtonsMember(p.buttons)
      + Wrap("timestamps", TimestampFields(p), HasTimestamps(p)))
  }

  /** The whole SET_ACTIVITY envelope for nonce counter `counter` and process id `pid`. */
  function PresenceJson(counter: nat, pid: nat, p: RichPresence): Json {
    JObject(map[
      "cmd" := JString("SET_ACTIVITY"),
      "nonce" := JString(DecimalString(counter)),
      "args" := JObject(map["pid" := JInt(pid), "activity" := ActivityJson(p)])])
  }

  // ---- what the envelope holds, field by field ----

  /** Following `args.activity.<path>` through the envelope is following `<path>` through the activity. */
  lemma LookupActivity(counter: nat, pid: nat, p: RichPresence, path: seq<string>)
    ensures Lookup(PresenceJson(counter, pid, p), Activity + path) == Lookup(ActivityJson(p), path)
  {
    var args := map["pid" := JInt(pid), "activity" := ActivityJson(p)];
    LookupMember(PresenceJson(counter, pid, p).fields, "args", ["activity"] + path);
    LookupMember(args, "activity", path);
    assert Activity + path == ["args"] + (["activity"] + path);
  }

  /** Looking up `key` in an object, and then nothing more. */
  lemma LookupLeaf(fields: map<string, Json>, key: string)
    ensures Lookup(JObject(fields), [key]) == if key in fields then Some(fields[key]) else None
  {
    LookupMember(fields, key, []);
    assert [key] + [] == [key];
  }

  /** Looking up `group.key` in an object. */
  lemma LookupNested(fields: map<string, Json>, group: string, key: string)
    requires group in fields ==> fields[group].JObject?
    ensures Lookup(JObject(fields), [group, key])
         == if group in fields && key in fields[group].fields then Some(fields[group].fields[key]) else None
  {
    LookupMember(fields, group, [key]);
    if group in fields {
      LookupLeaf(fields[group].fields, key);
    }
    assert [group] + [key] == [group, key];
  }

  /** `details` and `state` are always there. */
  lemma ActivityTexts(p: RichPresence)
    ensures var fields := ActivityJson(p).fields;
      && "details" in fields && fields["details"] == JString(p.header)
      && "state" in fields && fields["state"] == JString(p.details)
  {
    var fixed := map["details" := JString(p.header), "state" := JString(p.details)];
    var assets := Wrap("assets", AssetFields(p), HasAssets(p));
    var buttons := ButtonsMember(p.buttons);
    var stamps := Wrap("timestamps", TimestampFields(p), HasTimestamps(p));
    assert assets.Keys <= {"assets"} && buttons.Keys <= {"buttons"} && stamps.Keys <= {"timestamps"};
    assert "details" !in assets && "state" !in assets;
    assert "details" !in buttons && "state" !in buttons;
    assert "details" !in stamps && "state" !in stamps;
    var fields := fixed + assets + buttons + stamps;
    assert fields["details"] == fixed["details"] && fields["state"] == fixed["state"];
  }

  /** The `assets` group is there exactly when an image key or text is set. */
  lemma ActivityAssets(p: RichPresence)
    ensures var fields := ActivityJson(p).fields;
      && ("assets" in fields <==> HasAssets(p))
      && ("assets" in fields ==> fields["assets"] == JObject(AssetFields(p)))
  {
    var upper := ButtonsMember(p.buttons) + Wrap("timestamps", TimestampFields(p), HasTimestamps(p));
    assert "assets" !in upper;
  }

  /** The `buttons` array is there exactly when there are buttons. */
  lemma ActivityButtons(p: RichPresence)
    ensures var fields := ActivityJson(p).fields;
      && ("buttons" in fields <==> |p.buttons| != 0)
      && ("buttons" in fields ==> fields["buttons"] == JArray(ButtonsJson(p.buttons)))
  {
    var lower := map["details" := JString(p.header), "state" := JString(p.details)]
      + Wrap("assets", AssetFields(p), HasAssets(p));
    assert "buttons" !in lower;
    assert "buttons" !in Wrap("timestamps", TimestampFields(p), HasTimestamps(p));
  }

  /** The `timestamps` group is there exactly when a start or end time is set. */
  lemma ActivityTimestamps(p: RichPresence)
    ensures var fields := ActivityJson(p).fields;
      && ("timestamps" in fields <==> HasTimestamps(p))
      && ("timestamps" in fields ==> fields["timestamps"] == JObject(TimestampFields(p)))
  {
    var lower := map["details" := JString(p.header), "state" := JString(p.details)]
      + Wrap("assets", AssetFields(p), HasAssets(p)) + ButtonsMember(p.buttons);
    assert "timestamps" !in lower;
  }

  /** The activity holds nothing but these five members. */
  lemma ActivityKeys(p: RichPresence)
    ensures ActivityJson(p).fields.Keys <= {"details", "state", "assets", "buttons", "timestamps"}
  {
  }

  /** The envelope's own members: the command, the nonce (the counter in decimal) and the process id. */
  lemma PresenceCommand(counter: nat, pid: nat, p: RichPresence)
    ensures var json := PresenceJson(counter, pid, p);
      && Lookup(json, ["cmd"]) == Some(JString("SET_ACTIVITY"))
      && Lookup(json, ["nonce"]) == Some(JString(DecimalString(counter)))
      && Lookup(json, ["args", "pid"]) == Some(JInt(pid))
    ensures IsDigits(DecimalString(counter)) && DecimalValue(DecimalString(counter)) == counter
  {
    var fields := PresenceJson(counter, pid, p).fields;
    LookupLeaf(fields, "cmd");
    LookupLeaf(fields, "nonce");
    LookupNested(fields, "args", "pid");
    DecimalRoundTrip(counter);
  }

  /** `details` always carries the Header text and `state` the Details text. */
  lemma PresenceTexts(counter: nat, pid: nat, p: RichPresence)
    ensures var json := PresenceJson(counter, pid, p);
      && Lookup(json, Activity + ["details"]) == Some(JString(p.header))
      && Lookup(json, Activity + ["state"]) == Some(JString(p.details))
  {
    ActivityTexts(p);
    LookupActivity(counter, pid, p, ["details"]);
    LookupLeaf(ActivityJson(p).fields, "details");
    LookupActivity(counter, pid, p, ["state"]);
    LookupLeaf(ActivityJson(p).fields, "state");
  }

  /** Members of the asset group: each present exactly when its string is non-empty. */
  lemma AssetMembers(p: RichPresence)
    ensures var assets := AssetFields(p);
      && ("large_image" in assets <==> |p.imageLarge.key| != 0)
      && ("large_image" in assets ==> assets["large_image"] == JString(p.imageLarge.key))
      && ("large_text" in assets <==> |p.imageLarge.text| != 0)
      && ("large_text" in assets ==> assets["large_text"] == JString(p.imageLarge.text))
      && ("small_image" in assets <==> |p.imageSmall.key| != 0)
      && ("small_image" in assets ==> assets["small_image"] == JString(p.imageSmall.key))
      && ("small_text" in assets <==> |p.imageSmall.text| != 0)
      && ("small_text" in assets ==> assets["small_text"] == JString(p.imageSmall.text))
  {
  }

  /** `args.activity.assets.<key>` holds the image string exactly when it is non-empty. */
  lemma PresenceAsset(counter: nat, pid: nat, p: RichPresence, key: string, s: string)
    requires (key, s) in {("large_image", p.imageLarge.key), ("large_text", p.imageLarge.text),
                          ("small_image", p.imageSmall.key), ("small_text", p.imageSmall.text)}
    ensures Lookup(PresenceJson(counter, pid, p), Activity + ["assets", key])
         == if |s| != 0 then Some(JString(s)) else None
  {
    LookupActivity(counter, pid, p, ["assets", key]);
    ActivityAssets(p);
    LookupNested(ActivityJson(p).fields, "assets", key);
    AssetMembers(p);
  }

  /** The `assets` group appears exactly when at least one image string is non-empty. */
  lemma PresenceAssetGroup(counter: nat, pid: nat, p: RichPresence)
    ensures Lookup(PresenceJson(counter, pid, p), Activity + ["assets"]).Some?
       <==> |p.imageLarge.key| != 0 || |p.imageLarge.text| != 0 || |p.imageSmall.key| != 0 || |p.imageSmall.text| != 0
  {
    LookupActivity(counter, pid, p, ["assets"]);
    ActivityAssets(p);
    LookupLeaf(ActivityJson(p).fields, "assets");
  }

  /** `args.activity.buttons` is present exactly when there are buttons, and lists them in order as `{url, label}`. */
  lemma PresenceButtons(counter: nat, pid: nat, p: RichPresence)
    ensures Lookup(PresenceJson(counter, pid, p), Activity + ["buttons"])
         == if |p.buttons| != 0 then Some(JArray(ButtonsJson(p.buttons))) else None
  {
    LookupActivity(counter, pid, p, ["buttons"]);
    ActivityButtons(p);
    LookupLeaf(ActivityJson(p).fields, "buttons");
  }

  /** `args.activity.timestamps.start`/`end` are present exactly when their seconds are non-zero. */
  lemma PresenceTimestamps(counter: nat, pid: nat, p: RichPresence)
    ensures var json := PresenceJson(counter, pid, p);
      && Lookup(json, Activity + ["timestamps", "start"]) == (if p.timeStart != 0 then Some(JInt(p.timeStart)) else None)
      && Lookup(json, Activity + ["timestamps", "end"]) == (if p.timeEnd != 0 then Some(JInt(p.timeEnd)) else None)
      && (Lookup(json, Activity + ["timestamps"]).Some? <==> p.timeStart != 0 || p.timeEnd != 0)
  {
    var stamps := TimestampFields(p);
    assert ("start" in stamps <==> p.timeStart != 0) && ("start" in stamps ==> stamps["start"] == JInt(p.timeStart));
    assert ("end" in stamps <==> p.timeEnd != 0) && ("end" in stamps ==> stamps["end"] == JInt(p.timeEnd));
    ActivityTimestamps(p);
    LookupActivity(counter, pid, p, ["timestamps", "start"]);
    LookupNested(ActivityJson(p).fields, "timestamps", "start");
    LookupActivity(counter, pid, p, ["timestamps", "end"]);
    LookupNested(ActivityJson(p).fields, "timestamps", "end");
    LookupActivity(counter, pid, p, ["timestamps"]);
    LookupLeaf(ActivityJson(p).fields, "timestamps");
  }

  /** Fills a preallocated array of nulls, one button after the other (DiscordRPC.hpp:374-392). */
  method BuildButtons(bs: seq<Button>) returns (r: seq<Json>)
    ensures r == ButtonsJson(bs)
  {
    var buttons := new Json[|bs|];
    var i := 0;
    while i < |bs|
      invariant 0 <= i <= |bs|
      invariant forall k :: 0 <= k < i ==> buttons[k] == ButtonJson(bs[k])
    {
      buttons[i] := JObject(map["url" := JString(bs[i].url), "label" := JString(bs[i].caption)]);
      i := i + 1;
    }
    r := buttons[..];
  }

  // ---- the step-by-step construction of DiscordRPC.hpp:356-396 ----

  /** The envelope once `args.pid` is set and `args.activity` holds the members `act`. */
  function SetActivity(counter: nat, pid: nat, act: map<string, Json>): Json {
    JObject(map[
      "cmd" := JString("SET_ACTIVITY"),
      "nonce" := JString(DecimalString(counter)),
      "args" := JObject(map["pid" := JInt(pid), "activity" := JObject(act)])])
  }

  /** The members of the object `act[group]`, or none when it is absent. */
  function Group(act: map<string, Json>, group: string): map<string, Json> {
    if group in act && act[group].JObject? then act[group].fields else map[]
  }

  /** `json["args"]["activity"][key] = v` on an envelope sets one activity member. */
  lemma AssignMember(counter: nat, pid: nat, act: map<string, Json>, key: string, v: Json)
    ensures Assignable(SetActivity(counter, pid, act), Activity + [key])
    ensures Assign(SetActivity(counter, pid, act), Activity + [key], v) == SetActivity(counter, pid, act[key := v])
  {
    var args := JObject(map["pid" := JInt(pid), "activity" := JObject(act)]);
    assert Child(SetActivity(counter, pid, act), "args") == args;
    assert Child(args, "activity") == JObject(act);
    assert [key][1..] == [];
    assert Assignable(JObject(act), [key]);
    assert Assign(JObject(act), [key], v) == JObject(act[key := v]);
    assert ["activity", key][1..] == [key];
    assert Assignable(args, ["activity", key]);
    assert Assign(args, ["activity", key], v) == JObject(args.fields["activity" := JObject(act[key := v])]);
    var path := Activity + [key];
    assert path[0] == "args" && path[1..] == ["activity", key];
    assert Assignable(SetActivity(counter, pid, act), path);
    assert Assign(SetActivity(counter, pid, act), path, v)
        == JObject(SetActivity(counter, pid, act).fields["args" := Assign(args, ["activity", key], v)]);
    Reenvelope(counter, pid, act, act[key := v]);
  }

  /** `json["args"]["activity"][group][key] = v` adds `key` to the object `group`, creating it if absent. */
  lemma AssignGroupMember(counter: nat, pid: nat, act: map<string, Json>, group: string, key: string, v: Json)
    requires group in act ==> act[group].JObject?
    ensures Assignable(SetActivity(counter, pid, act), Activity + [group, key])
    ensures Assign(SetActivity(counter, pid, act), Activity + [group, key], v)
         == SetActivity(counter, pid, act[group := JObject(Group(act, group)[key := v])])
  {
    var args := JObject(map["pid" := JInt(pid), "activity" := JObject(act)]);
    assert Child(SetActivity(counter, pid, act), "args") == args;
    assert Child(args, "activity") == JObject(act);
    var g := Child(JObject(act), group);
    assert g.JObject? || g.JNull?;
    assert [key][1..] == [];
    assert Assignable(g, [key]);
    assert Assign(g, [key], v) == JObject(Group(act, group)[key := v]);
    assert [group, key][1..] == [key];
    assert Assignable(JObject(act), [group, key]);
    assert ["activity", group, key][1..] == [group, key];
    assert Assignable(args, ["activity", group, key]);
    assert Assign(JObject(act), [group, key], v) == JObject(act[group := JObject(Group(act, group)[key := v])]);
    assert Assign(args, ["activity", group, key], v)
        == JObject(args.fields["activity" := JObject(act[group := JObject(Group(act, group)[key := v])])]);
    var path := Activity + [group, key];
    assert path[0] == "args" && path[1..] == ["activity", group, key];
    assert Assignable(SetActivity(counter, pid, act), path);
    assert Assign(SetActivity(counter, pid, act), path, v)
        == JObject(SetActivity(counter, pid, act).fields["args" := Assign(args, ["activity", group, key], v)]);
    Reenvelope(counter, pid, act, act[group := JObject(Group(act, group)[key := v])]);
  }

  /** Replacing `args.activity` of an envelope gives the envelope with the new activity. */
  lemma Reenvelope(counter: nat, pid: nat, act: map<string, Json>, act': map<string, Json>)
    ensures var args := JObject(map["pid" := JInt(pid), "activity" := JObject(act)]);
      JObject(SetActivity(counter, pid, act).fields["args" := JObject(args.fields["activity" := JObject(act')])])
      == SetActivity(counter, pid, act')
  {
    var args := JObject(map["pid" := JInt(pid), "activity" := JObject(act)]);
    assert args.fields["activity" := JObject(act')] == map["pid" := JInt(pid), "activity" := JObject(act')];
    var top := SetActivity(counter, pid, act).fields;
    assert top["args" := JObject(map["pid" := JInt(pid), "activity" := JObject(act')])] == SetActivity(counter, pid, act').fields;
  }

  /** `json["args"]["activity"][key] = v` adds the member `key: v` to the activity. */
  lemma MemberStep(counter: nat, pid: nat, act: map<string, Json>, key: string, v: Json)
    ensures Assignable(SetActivity(counter, pid, act), Activity + [key])
    ensures Assign(SetActivity(counter, pid, act), Activity + [key], v) == SetActivity(counter, pid, act + map[key := v])
  {
    AssignMember(counter, pid, act, key, v);
    assert act[key := v] == act + map[key := v];
  }

  /**
   * On an envelope whose activity is `base` plus the object `group` holding
   * `members` (absent unless `any`), the conditional
   * `json["args"]["activity"][group][key] = v` adds `key: v` to that object,
   * creating it, when `present`, and otherwise leaves the envelope as it is.
   */
  lemma GroupStep(counter: nat, pid: nat, base: map<string, Json>, group: string,
                  members: map<string, Json>, any: bool, present: bool, key: string, v: Json)
    requires group !in base
    requires !any ==> members == map[]
    ensures var json := SetActivity(counter, pid, base + Wrap(group, members, any));
      var json' := SetActivity(counter, pid, base + Wrap(group, members + (if present then map[key := v] else map[]), any || present));
      if present then Assignable(json, Activity + [group, key]) && Assign(json, Activity + [group, key], v) == json'
      else json == json'
  {
    if present {
      GroupAdd(counter, pid, base, group, members, any, key, v);
    } else {
      assert members + map[] == members;
    }
  }

  /** The `present` half of `GroupStep`. */
  lemma GroupAdd(counter: nat, pid: nat, base: map<string, Json>, group: string,
                 members: map<string, Json>, any: bool, key: string, v: Json)
    requires group !in base
    requires !any ==> members == map[]
    ensures var act := base + Wrap(group, members, any);
      && Assignable(SetActivity(counter, pid, act), Activity + [group, key])
      && Assign(SetActivity(counter, pid, act), Activity + [group, key], v)
         == SetActivity(counter, pid, base + Wrap(group, members + map[key := v], true))
  {
    var act := base + Wrap(group, members, any);
    assert group in act ==> act[group] == JObject(members);
    AssignGroupMember(counter, pid, act, group, key, v);
    assert Group(act, group) == members;
    assert members + map[key := v] == members[key := v];
    var g := JObject(members[key := v]);
    assert act[group := g] == base + map[group := g];
  }

  /** The `assets` assignments of DiscordRPC.hpp:366-370: each image string is set only when non-empty. */
  method AddAssets(json: Json, ghost counter: nat, ghost pid: nat, ghost base: map<string, Json>, p: RichPresence)
    returns (json': Json)
    requires json == SetActivity(counter, pid, base) && "assets" !in base
    ensures json' == SetActivity(counter, pid, base + Wrap("assets", AssetFields(p), HasAssets(p)))
  {
    json' := json;
    assert base + Wrap("assets", map[], false) == base;
    GroupStep(counter, pid, base, "assets", map[], false, |p.imageLarge.key| != 0, "large_image", JString(p.imageLarge.key));
    if |p.imageLarge.key| != 0 {
      json' := Assign(json', Activity + ["assets", "large_image"], JString(p.imageLarge.key));
    }
    assert map[] + IfText("large_image", p.imageLarge.key) == IfText("large_image", p.imageLarge.key);
    ghost var assets := IfText("large_image", p.imageLarge.key);
    ghost var any := |p.imageLarge.key| != 0;
    GroupStep(counter, pid, base, "assets", assets, any, |p.imageLarge.text| != 0, "large_text", JString(p.imageLarge.text));
    if |p.imageLarge.text| != 0 {
      json' := Assign(json', Activity + ["assets", "large_text"], JString(p.imageLarge.text));
    }
    assets, any := assets + IfText("large_text", p.imageLarge.text), any || |p.imageLarge.text| != 0;
    GroupStep(counter, pid, base, "assets", assets, any, |p.imageSmall.key| != 0, "small_image", JString(p.imageSmall.key));
    if |p.imageSmall.key| != 0 {
      json' := Assign(json', Activity + ["assets", "small_image"], JString(p.imageSmall.key));
    }
    assets, any := assets + IfText("small_image", p.imageSmall.key), any || |p.imageSmall.key| != 0;
    GroupStep(counter, pid, base, "assets", assets, any, |p.imageSmall.text| != 0, "small_text", JString(p.imageSmall.text));
    if |p.imageSmall.text| != 0 {
      json' := Assign(json', Activity + ["assets", "small_text"], JString(p.imageSmall.text));
    }
  }

  /** The `buttons` assignment of DiscordRPC.hpp:372-393: only for a non-empty button list. */
  method AddButtons(json: Json, ghost counter: nat, ghost pid: nat, ghost base: map<string, Json>, bs: seq<Button>)
    returns (json': Json)
    requires json == SetActivity(counter, pid, base)
    ensures json' == SetActivity(counter, pid, base + ButtonsMember(bs))
  {
    json' := json;
    if |bs| != 0 {
      var buttons := BuildButtons(bs);
      MemberStep(counter, pid, base, "buttons", JArray(buttons));
      json' := Assign(json', Activity + ["buttons"], JArray(buttons));
    } else {
      assert base + map[] == base;
    }
  }

  /** The `timestamps` assignments of DiscordRPC.hpp:395-396: each only for a non-zero time. */
  method AddTimestamps(json: Json, ghost counter: nat, ghost pid: nat, ghost base: map<string, Json>, p: RichPresence)
    returns (json': Json)
    requires json == SetActivity(counter, pid, base) && "timestamps" !in base
    ensures json' == SetActivity(counter, pid, base + Wrap("timestamps", TimestampFields(p), HasTimestamps(p)))
  {
    json' := json;
    assert base + Wrap("timestamps", map[], false) == base;
    GroupStep(counter, pid, base, "timestamps", map[], false, p.timeStart != 0, "start", JInt(p.timeStart));
    if p.timeStart != 0 {
      json' := Assign(json', Activity + ["timestamps", "start"], JInt(p.timeStart));
    }
    assert map[] + IfSeconds("start", p.timeStart) == IfSeconds("start", p.timeStart);
    ghost var stamps := IfSeconds("start", p.timeStart);
    GroupStep(counter, pid, base, "timestamps", stamps, p.timeStart != 0, p.timeEnd != 0, "end", JInt(p.timeEnd));
    if p.timeEnd != 0 {
      json' := Assign(json', Activity + ["timestamps", "end"], JInt(p.timeEnd));
    }
  }

  /** `json["args"]["pid"] = pid` on the two-member object the envelope starts as. */
  lemma AssignPid(counter: nat, pid: nat)
    ensures var start := JObject(map["cmd" := JString("SET_ACTIVITY"), "nonce" := JString(DecimalString(counter))]);
      && Assignable(start, ["args", "pid"])
      && Assign(start, ["args", "pid"], JInt(pid)) == JObject(map[
           "cmd" := JString("SET_ACTIVITY"),
           "nonce" := JString(DecimalString(counter)),
           "args" := JObject(map["pid" := JInt(pid)])])
  {
    assert ["args", "pid"][1..] == ["pid"] && ["pid"][1..] == [];
  }

  /** `json["args"]["activity"]["details"] = header` creates the activity object. */
  lemma AssignDetails(counter: nat, pid: nat, header: string)
    ensures var json := JObject(map[
              "cmd" := JString("SET_ACTIVITY"),
              "nonce" := JString(DecimalString(counter)),
              "args" := JObject(map["pid" := JInt(pid)])]);
      && Assignable(json, Activity + ["details"])
      && Assign(json, Activity + ["details"], JString(header)) == SetActivity(counter, pid, map["details" := JString(header)])
  {
    var json := JObject(map[
      "cmd" := JString("SET_ACTIVITY"),
      "nonce" := JString(DecimalString(counter)),
      "args" := JObject(map["pid" := JInt(pid)])]);
    var act := map["details" := JString(header)];
    assert (Activity + ["details"])[1..] == ["activity", "details"];
    assert ["activity", "details"][1..] == ["details"] && ["details"][1..] == [];
    var args := JObject(map["pid" := JInt(pid)]);
    assert Child(json, "args") == args && Child(args, "activity") == JNull;
    assert Assignable(JNull, ["details"]);
    assert Assign(JNull, ["details"], JString(header)) == JObject(act);
    assert Assignable(args, ["activity", "details"]);
    assert Assign(args, ["activity", "details"], JString(header))
        == JObject(map["pid" := JInt(pid), "activity" := JObject(act)]);
    assert (Activity + ["details"])[0] == "args";
  }

  /** No member before the `timestamps` group is called `timestamps`. */
  lemma LacksTimestamps(p: RichPresence)
    ensures "timestamps" !in map["details" := JString(p.header), "state" := JString(p.details)]
      + Wrap("assets", AssetFields(p), HasAssets(p)) + ButtonsMember(p.buttons)
  {
    var assets := Wrap("assets", AssetFields(p), HasAssets(p));
    var buttons := ButtonsMember(p.buttons);
    assert "timestamps" !in assets && "timestamps" !in buttons;
  }

  /**
   * Builds the envelope by the same sequence of `json[...] = ...` assignments as
   * DiscordRPC.hpp:356-396, and yields exactly `PresenceJson`.
   */
  method BuildPresence(counter: nat, pid: nat, p: RichPresence) returns (json: Json)
    ensures json == PresenceJson(counter, pid, p)
  {
    json := JObject(map["cmd" := JString("SET_ACTIVITY"), "nonce" := JString(DecimalString(counter))]);
    AssignPid(counter, pid);
    json := Assign(json, ["args", "pid"], JInt(pid));
    AssignDetails(counter, pid, p.header);
    json := Assign(json, Activity + ["details"], JString(p.header));
    ghost var act := map["details" := JString(p.header)];
    AssignMember(counter, pid, act, "state", JString(p.details));
    json := Assign(json, Activity + ["state"], JString(p.details));
    act := act["state" := JString(p.details)];

    json := AddAssets(json, counter, pid, act, p);
    act := act + Wrap("assets", AssetFields(p), HasAssets(p));
    json := AddButtons(json, counter, pid, act, p.buttons);
    act := act + ButtonsMember(p.buttons);
    LacksTimestamps(p);
    json := AddTimestamps(json, counter, pid, act, p);
    act := act + Wrap("timestamps", TimestampFields(p), HasTimestamps(p));
    assert act == ActivityJson(p).fields;
  }
}
