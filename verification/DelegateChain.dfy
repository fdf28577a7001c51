/** The plugin's delegate chains: a base delegate and post delegates, run in
    order on ADD, each told the previous result, and in reverse on DEL. */
module DelegateChain {
  import opened Common

  /** What a delegate answers; some answers cannot be converted for the next. */
  datatype CniResult = CniResult(body: string, convertible: bool)

  datatype Value =
    | Text(text: string)
    | Json(body: string)
    | Null
    | PrevResult(result: CniResult, version: string)

  type Conf = map<string, Value>

  datatype PluginConf = PluginConf(
    cniVersion: string, delegate: Option<Conf>, postDelegates: seq<Option<Conf>>, runtimeConfig: Option<Value>)

  const PLUGIN_NAME := "multus-multivpc-cni"
  const IPVLAN_NAME := "multivpc-ipvlan"
  const SBR_NAME := "multivpc-sbr"
  const PREV := "prevResult"

  function TypeOf(conf: Conf): string {
    if "type" in conf && conf["type"].Text? then conf["type"].text else ""
  }

  /** A delegate without a type cannot be run. */
  predicate Typed(conf: Conf) {
    "type" in conf && conf["type"].Text? && conf["type"].text != ""
  }

  function DefaultName(post: Conf): string {
    if TypeOf(post) == "sbr" then SBR_NAME else PLUGIN_NAME
  }

  function DeriveDelegateName(defaultName: string): string {
    if defaultName != "" then defaultName else PLUGIN_NAME
  }

  /** What the plugin fills in where the delegate says nothing. */
  function Defaults(conf: PluginConf, defaultName: string): Conf {
    Inherited(conf) + (map["name" := Text(DeriveDelegateName(defaultName))] + map["type" := Text("ipvlan")])
  }

  /** ... of which these come from the plugin's own configuration. */
  function Inherited(conf: PluginConf): Conf {
    (if conf.runtimeConfig.Some? then map["runtimeConfig" := conf.runtimeConfig.value] else map[])
    + (if conf.cniVersion != "" then map["cniVersion" := Text(conf.cniVersion)] else map[])
  }

  /** What it sets whatever the delegate says: the master device, if known. */
  function Forced(master: string): Conf {
    if master != "" then map["master" := Text(master)] else map[]
  }

  /** A delegate's own settings win over the defaults, a known master over both. */
  function Configured(conf: PluginConf, master: string, delegate: Conf, defaultName: string): Conf {
    Defaults(conf, defaultName) + delegate + Forced(master)
  }

  function Convert(r: CniResult, version: string): Value {
    if r.convertible then PrevResult(r, version) else Null
  }

  // ---- what the chains should run ---------------------------------------------

  function PostConfigs(conf: PluginConf, master: string, posts: seq<Option<Conf>>): seq<Conf> {
    if posts == [] then []
    else
      var rest, last := PostConfigs(conf, master, posts[..|posts| - 1]), posts[|posts| - 1];
      if last.None? then rest else rest + [Configured(conf, master, last.value, DefaultName(last.value))]
  }

  function BaseConfig(conf: PluginConf, master: string): Conf {
    Configured(conf, master, if conf.delegate.Some? then conf.delegate.value else map[], IPVLAN_NAME)
  }

  /** The delegates of the chain, as configured, in ADD order. */
  function Configs(conf: PluginConf, master: string): seq<Conf> {
    [BaseConfig(conf, master)] + PostConfigs(conf, master, conf.postDelegates)
  }

  /** ADD's i-th call, given the results of the calls before it. */
  function AddCall(conf: PluginConf, master: string, results: seq<CniResult>, i: nat): Conf
    requires i < |Configs(conf, master)| && i <= |results|
  {
    var c := Configs(conf, master)[i];
    if i == 0 then c else c[PREV := Convert(results[i - 1], conf.cniVersion)]
  }

  /** ADD has made its first |calls| calls and got `results` from the first of them. */
  ghost predicate AddsSoFar(conf: PluginConf, master: string, calls: seq<Conf>, results: seq<CniResult>) {
    && |results| <= |calls| <= |Configs(conf, master)| && |calls| <= |results| + 1
    && forall i :: 0 <= i < |calls| ==> calls[i] == AddCall(conf, master, results, i)
  }

  function Reverse<T>(s: seq<T>): (r: seq<T>)
    ensures |r| == |s| && forall i :: 0 <= i < |s| ==> r[i] == s[|s| - 1 - i]
  {
    if s == [] then [] else [s[|s| - 1]] + Reverse(s[..|s| - 1])
  }

  // ---- properties of a configuration ---------------------------------------------

  predicate SetByPlugin(key: string) {
    key == "type" || key == "name" || key == "master" || key == "cniVersion" || key == "runtimeConfig"
  }

  /** Keys the plugin does not know pass through; what the delegate sets stays,
      but for a known master; there is always a type. */
  lemma ConfiguredKeepsDelegate(conf: PluginConf, master: string, delegate: Conf, name: string)
    ensures var out := Configured(conf, master, delegate, name);
      && "type" in out && "name" in out && (master != "" ==> "master" in out && out["master"] == Text(master))
      && (forall k :: k in delegate && (k != "master" || master == "") ==> k in out && out[k] == delegate[k])
      && (forall k :: k in out && !SetByPlugin(k) ==> k in delegate)
      && (forall name' :: Configured(conf, master, out, name') == out)
  {
    var out := Configured(conf, master, delegate, name);
    forall name'
      ensures Configured(conf, master, out, name') == out
    {
      assert Configured(conf, master, out, name').Keys == out.Keys;
    }
  }

  /** What is filled in where the delegate says nothing. */
  lemma ConfiguredFillsIn(conf: PluginConf, master: string, delegate: Conf, name: string)
    ensures var out := Configured(conf, master, delegate, name);
      && ("type" !in delegate ==> "type" in out && out["type"] == Text("ipvlan"))
      && ("name" !in delegate ==>
            "name" in out && out["name"] == Text(if name != "" then name else "multus-multivpc-cni"))
      && ("cniVersion" !in delegate ==>
            && ("cniVersion" in out <==> conf.cniVersion != "")
            && ("cniVersion" in out ==> out["cniVersion"] == Text(conf.cniVersion)))
      && ("runtimeConfig" !in delegate ==>
            && ("runtimeConfig" in out <==> conf.runtimeConfig.Some?)
            && ("runtimeConfig" in out ==> out["runtimeConfig"] == conf.runtimeConfig.value))
      && ("master" !in delegate && master == "" ==> "master" !in out)
  {
  }

  /** The names delegates without one of their own get in the chain. */
  lemma ChainNames(conf: PluginConf, master: string, post: Conf)
    ensures conf.delegate.None? || "name" !in conf.delegate.value ==>
      BaseConfig(conf, master)["name"] == Text("multivpc-ipvlan")
    ensures "name" !in post ==>
      Configured(conf, master, post, DefaultName(post))["name"] ==
        if "type" in post && post["type"] == Text("sbr") then Text("multivpc-sbr") else Text("multus-multivpc-cni")
  {
    ConfiguredFillsIn(conf, master, if conf.delegate.Some? then conf.delegate.value else map[], IPVLAN_NAME);
    ConfiguredFillsIn(conf, master, post, DefaultName(post));
  }

  lemma {:induction false} PostConfigsConcat(
      conf: PluginConf, master: string, a: seq<Option<Conf>>, b: seq<Option<Conf>>)
    ensures PostConfigs(conf, master, a + b) == PostConfigs(conf, master, a) + PostConfigs(conf, master, b)
  {
    if b == [] {
      assert a + b == a;
    } else {
      assert (a + b)[..|a + b| - 1] == a + b[..|b| - 1];
      PostConfigsConcat(conf, master, a, b[..|b| - 1]);
    }
  }

  predicate HasPrev(delegate: Option<Conf>) {
    delegate.Some? && PREV in delegate.value
  }

  /** The configuration of the base delegate or of a post delegate has a prevResult. */
  predicate CarriesPrev(conf: PluginConf) {
    HasPrev(conf.delegate) || exists post :: post in conf.postDelegates && HasPrev(post)
  }

  /** Configuring a delegate neither adds nor takes away a prevResult. */
  lemma ConfiguredHasPrev(conf: PluginConf, master: string, delegate: Conf, name: string)
    ensures PREV in Configured(conf, master, delegate, name) <==> PREV in delegate
  {
  }

  lemma {:induction false} PostsWithPrev(conf: PluginConf, master: string, posts: seq<Option<Conf>>)
    ensures (exists post :: post in posts && HasPrev(post))
            <==> exists c :: c in PostConfigs(conf, master, posts) && PREV in c
  {
    if posts != [] {
      var init, last := posts[..|posts| - 1], posts[|posts| - 1];
      assert posts == init + [last];
      PostsWithPrev(conf, master, init);
      if last.Some? {
        ConfiguredHasPrev(conf, master, last.value, DefaultName(last.value));
        var c := Configured(conf, master, last.value, DefaultName(last.value));
        var before, after := PostConfigs(conf, master, init), PostConfigs(conf, master, posts);
        assert forall x :: x in after <==> x in before || x == c;
        assert forall post :: post in posts <==> post in init || post == last;
        assert HasPrev(last) <==> PREV in c;
        if HasPrev(last) {
          assert last in posts && c in after;
        }
      }
    }
  }

  lemma ConfigsWithPrev(conf: PluginConf, master: string)
    ensures CarriesPrev(conf) <==> exists i :: 0 <= i < |Configs(conf, master)| && PREV in Configs(conf, master)[i]
  {
    var posts, configs := PostConfigs(conf, master, conf.postDelegates), Configs(conf, master);
    PostsWithPrev(conf, master, conf.postDelegates);
    ConfiguredHasPrev(conf, master, if conf.delegate.Some? then conf.delegate.value else map[], IPVLAN_NAME);
    assert configs[0] == BaseConfig(conf, master);
    assert forall c :: c in configs <==> c == configs[0] || c in posts;
  }

  /** A base delegate configured with a prevResult keeps it on DEL. */
  lemma DelCanKeepPrev()
    ensures var conf := PluginConf("", Some(map[PREV := Null]), [], None);
      PREV in Reverse(Configs(conf, ""))[0]
  {
  }

  /** DEL's calls are exactly ADD's in reverse with prevResult taken off, if and
      only if no delegate is configured with a prevResult of its own. */
  lemma DelMirrorsAdd(conf: PluginConf, master: string, adds: seq<Conf>, results: seq<CniResult>)
    requires AddsSoFar(conf, master, adds, results) && |adds| == |Configs(conf, master)|
    ensures (forall i :: 0 <= i < |adds| ==> Reverse(Configs(conf, master))[|adds| - 1 - i] == adds[i] - {PREV})
            <==> !CarriesPrev(conf)
  {
    var configs := Configs(conf, master);
    ConfigsWithPrev(conf, master);
    forall i | 0 <= i < |adds|
      ensures Reverse(configs)[|adds| - 1 - i] == configs[i]
      ensures adds[i] - {PREV} == configs[i] - {PREV}
      ensures PREV !in configs[i] <==> configs[i] - {PREV} == configs[i]
    {
      assert adds[i] == AddCall(conf, master, results, i);
      if PREV !in configs[i] {
        assert configs[i] - {PREV} == configs[i];
      }
    }
  }

  // ---- running them ------------------------------------------------------------------

  /** The delegate plugins, as the record of the calls made to them; `undone` counts
      the DEL calls that succeeded. */
  class Delegates {
    var adds: seq<Conf>
    var results: seq<CniResult>
    var dels: seq<Conf>
    var undone: nat

    /** A delegate without a type is not run; one that runs may fail. */
    method Add(conf: Conf) returns (r: Option<CniResult>)
      modifies `adds, `results
      ensures TypeOf(conf) == "" ==> r.None? && adds == old(adds)
      ensures TypeOf(conf) != "" ==> adds == old(adds) + [conf]
      ensures results == if r.Some? then old(results) + [r.value] else old(results)
    {
      if TypeOf(conf) == "" { return None; }
      adds := adds + [conf];
      var answer: Option<CniResult> := *;
      if answer.Some? { results := results + [answer.value]; }
      return answer;
    }

    method Del(conf: Conf) returns (ok: bool)
      modifies `dels, `undone
      ensures undone == if ok then old(undone) + 1 else old(undone)
      ensures TypeOf(conf) == "" ==> !ok && dels == old(dels)
      ensures TypeOf(conf) != "" ==> dels == old(dels) + [conf]
    {
      if TypeOf(conf) == "" { return false; }
      dels := dels + [conf];
      ok := *;
      if ok { undone := undone + 1; }
    }
  }

  lemma MergeAssociates(a: Conf, b: Conf, c: Conf)
    ensures (a + b) + c == a + (b + c)
  {
  }

  /** Sets a key unless it is there: the key's value is a default. */
  method FillIn(conf: Conf, key: string, v: Value) returns (out: Conf)
    ensures out == map[key := v] + conf
  {
    if key in conf {
      assert map[key := v] + conf == conf;
      return conf;
    }
    assert map[key := v] + conf == conf[key := v];
    return conf[key := v];
  }

  method FillInInherited(conf: PluginConf, delegate: Conf) returns (out: Conf)
    ensures out == Inherited(conf) + delegate
  {
    out := delegate;
    ghost var none: Conf := map[];
    assert none + delegate == delegate && none + none == none;
    if conf.cniVersion != "" {
      out := FillIn(out, "cniVersion", Text(conf.cniVersion));
    }
    if conf.runtimeConfig.Some? {
      ghost var v := if conf.cniVersion != "" then map["cniVersion" := Text(conf.cniVersion)] else map[];
      MergeAssociates(map["runtimeConfig" := conf.runtimeConfig.value], v, delegate);
      out := FillIn(out, "runtimeConfig", conf.runtimeConfig.value);
    } else if conf.cniVersion != "" {
      assert none + map["cniVersion" := Text(conf.cniVersion)] == map["cniVersion" := Text(conf.cniVersion)];
    }
  }

  /** The key by key code yields the defaults, overridden by what the delegate
      says, overridden by the master: keys the plugin does not know pass through,
      and what the delegate sets stays, but for a known master. */
  method ConfigureDelegate(conf: PluginConf, master: string, delegate: Conf, defaultName: string) returns (out: Conf)
    ensures out == Configured(conf, master, delegate, defaultName)
    ensures forall k :: k in delegate && (k != "master" || master == "") ==> k in out && out[k] == delegate[k]
    ensures forall k :: k in out && !SetByPlugin(k) ==> k in delegate
  {
    ConfiguredKeepsDelegate(conf, master, delegate, defaultName);
    ghost var kind, name := map["type" := Text("ipvlan")], map["name" := Text(DeriveDelegateName(defaultName))];
    out := FillIn(delegate, "type", Text("ipvlan"));
    out := FillIn(out, "name", Text(DeriveDelegateName(defaultName)));
    MergeAssociates(name, kind, delegate);
    ghost var own := out;
    if master != "" {
      assert out["master" := Text(master)] == out + Forced(master);
      out := out["master" := Text(master)];
    } else {
      assert out + Forced(master) == out;
    }
    out := FillInInherited(conf, out);
    MergeAssociates(Inherited(conf), own, Forced(master));
    MergeAssociates(Inherited(conf), name + kind, delegate);
  }

  lemma AddStep(conf: PluginConf, master: string, adds: seq<Conf>, results: seq<CniResult>, c: Conf, r: CniResult)
    requires AddsSoFar(conf, master, adds, results) && |adds| == |results| < |Configs(conf, master)|
    requires c == AddCall(conf, master, results, |adds|)
    ensures AddsSoFar(conf, master, adds + [c], results)
    ensures AddsSoFar(conf, master, adds + [c], results + [r])
  {
    forall i | 0 <= i <= |adds|
      ensures (adds + [c])[i] == AddCall(conf, master, results, i)
      ensures AddCall(conf, master, results + [r], i) == AddCall(conf, master, results, i)
    {
    }
  }

  /** The base delegate of ADD. */
  method AddBase(d: Delegates, conf: PluginConf, master: string) returns (r: Option<CniResult>)
    requires d.adds == [] && d.results == []
    modifies d`adds, d`results
    ensures AddsSoFar(conf, master, d.adds, d.results)
    ensures r.None? ==> d.results == []
    ensures r.None? ==> |d.adds| > |d.results| || !Typed(Configs(conf, master)[|d.adds|])
    ensures r.Some? ==> |d.adds| == 1 && d.results == [r.value]
  {
    var own := if conf.delegate.Some? then conf.delegate.value else map[];
    var base := ConfigureDelegate(conf, master, own, IPVLAN_NAME);
    assert AddsSoFar(conf, master, [], []);
    assert base == AddCall(conf, master, [], 0);
    r := d.Add(base);
    AddStep(conf, master, [], [], base, if r.Some? then r.value else CniResult("", false));
  }

  /** One post delegate of ADD. */
  method AddPost(d: Delegates, conf: PluginConf, master: string, i: nat, prev: CniResult) returns (r: Option<CniResult>)
    requires i < |conf.postDelegates|
    requires |d.adds| == |d.results| == 1 + |PostConfigs(conf, master, conf.postDelegates[..i])|
    requires AddsSoFar(conf, master, d.adds, d.results) && prev == d.results[|d.results| - 1]
    modifies d`adds, d`results
    ensures AddsSoFar(conf, master, d.adds, d.results)
    ensures r.None? ==> |d.results| < |Configs(conf, master)|
    ensures r.None? ==> |d.adds| > |d.results| || !Typed(Configs(conf, master)[|d.adds|])
    ensures r.Some? ==>
      && |d.adds| == |d.results| == 1 + |PostConfigs(conf, master, conf.postDelegates[..i + 1])|
      && r.value == d.results[|d.results| - 1]
  {
    PrefixOfConfigs(conf, master, i);
    var post := conf.postDelegates[i];
    if post.None? { return Some(prev); }
    var next := ConfigureDelegate(conf, master, post.value, DefaultName(post.value));
    next := next[PREV := Convert(prev, conf.cniVersion)];
    ghost var adds, results := d.adds, d.results;
    assert next == AddCall(conf, master, results, |adds|);
    r := d.Add(next);
    AddStep(conf, master, adds, results, next, if r.Some? then r.value else prev);
  }

  /** The call carries this result, in this CNI version, or null if the result cannot
      be converted. */
  predicate Told(call: Conf, r: CniResult, version: string) {
    && "prevResult" in call
    && (r.convertible ==> call["prevResult"] == PrevResult(r, version))
    && (!r.convertible ==> call["prevResult"] == Null)
  }

  /** Every call after the first carries the result before it. */
  predicate ToldResults(conf: PluginConf, calls: seq<Conf>, results: seq<CniResult>)
    requires |calls| <= |results| + 1
  {
    forall i :: 0 < i < |calls| ==> Told(calls[i], results[i - 1], conf.cniVersion)
  }

  lemma AddsAreTold(conf: PluginConf, master: string, adds: seq<Conf>, results: seq<CniResult>)
    requires AddsSoFar(conf, master, adds, results)
    ensures ToldResults(conf, adds, results)
  {
    forall i | 0 < i < |adds|
      ensures Told(adds[i], results[i - 1], conf.cniVersion)
    {
      assert adds[i] == AddCall(conf, master, results, i);
    }
  }

  /** ADD runs the chain in order, each post delegate told the result before it,
      and stops at the first failure; the last result is the answer. */
  method RunDelegateChain(d: Delegates, conf: PluginConf, master: string) returns (r: Option<CniResult>)
    requires d.adds == [] && d.results == []
    modifies d`adds, d`results
    ensures AddsSoFar(conf, master, d.adds, d.results) && ToldResults(conf, d.adds, d.results)
    ensures r.Some? <==> |d.results| == |Configs(conf, master)|
    ensures r.Some? ==> r.value == d.results[|d.results| - 1]
    ensures r.None? ==> |d.adds| > |d.results| || !Typed(Configs(conf, master)[|d.adds|])
  {
    r := RunAddChain(d, conf, master);
    AddsAreTold(conf, master, d.adds, d.results);
  }

  method RunAddChain(d: Delegates, conf: PluginConf, master: string) returns (r: Option<CniResult>)
    requires d.adds == [] && d.results == []
    modifies d`adds, d`results
    ensures AddsSoFar(conf, master, d.adds, d.results)
    ensures r.Some? <==> |d.results| == |Configs(conf, master)|
    ensures r.Some? ==> r.value == d.results[|d.results| - 1]
    ensures r.None? ==> |d.adds| > |d.results| || !Typed(Configs(conf, master)[|d.adds|])
  {
    r := AddBase(d, conf, master);
    if r.None? { return; }
    assert PostConfigs(conf, master, conf.postDelegates[..0]) == [];
    for i := 0 to |conf.postDelegates|
      invariant |d.adds| == |d.results| == 1 + |PostConfigs(conf, master, conf.postDelegates[..i])|
      invariant AddsSoFar(conf, master, d.adds, d.results)
      invariant r == Some(d.results[|d.results| - 1])
    {
      r := AddPost(d, conf, master, i, r.value);
      if r.None? { return; }
    }
    assert conf.postDelegates[..|conf.postDelegates|] == conf.postDelegates;
  }

  lemma PrefixOfConfigs(conf: PluginConf, master: string, i: nat)
    requires i < |conf.postDelegates|
    ensures var before, post := PostConfigs(conf, master, conf.postDelegates[..i]), conf.postDelegates[i];
      var after := PostConfigs(conf, master, conf.postDelegates[..i + 1]);
      if post.None? then after == before
      else
        && after == before + [Configured(conf, master, post.value, DefaultName(post.value))]
        && 1 + |before| < |Configs(conf, master)|
        && Configs(conf, master)[1 + |before|] == Configured(conf, master, post.value, DefaultName(post.value))
  {
    var posts := conf.postDelegates;
    assert posts[..i + 1][..i] == posts[..i];
    assert posts == posts[..i + 1] + posts[i + 1..];
    PostConfigsConcat(conf, master, posts[..i + 1], posts[i + 1..]);
  }

  /** DEL's first calls: the delegates from the last one back. */
  predicate DelsSoFar(configs: seq<Conf>, dels: seq<Conf>) {
    && |dels| <= |configs|
    && forall j :: 0 <= j < |dels| ==> dels[j] == configs[|configs| - 1 - j]
  }

  lemma DelStep(configs: seq<Conf>, dels: seq<Conf>, c: Conf)
    requires DelsSoFar(configs, dels) && |dels| < |configs| && c == configs[|configs| - 1 - |dels|]
    ensures DelsSoFar(configs, dels + [c])
  {
  }

  /** DEL has made its first calls; all succeeded if it goes on, and if it stops the
      last one failed, or the next delegate has no type. */
  predicate DelsGoing(configs: seq<Conf>, dels: seq<Conf>, undone: nat, ok: bool) {
    && DelsSoFar(configs, dels)
    && (ok ==> undone == |dels|)
    && (!ok ==>
          || undone + 1 == |dels|
          || (undone == |dels| < |configs| && !Typed(configs[|configs| - 1 - |dels|])))
  }

  /** One post delegate of DEL. */
  method DelPost(d: Delegates, conf: PluginConf, master: string, i: nat) returns (ok: bool)
    requires i < |conf.postDelegates| && DelsGoing(Configs(conf, master), d.dels, d.undone, true)
    requires |d.dels| + 1 + |PostConfigs(conf, master, conf.postDelegates[..i + 1])| == |Configs(conf, master)|
    modifies d`dels, d`undone
    ensures DelsGoing(Configs(conf, master), d.dels, d.undone, ok)
    ensures ok ==> |d.dels| + 1 + |PostConfigs(conf, master, conf.postDelegates[..i])| == |Configs(conf, master)|
  {
    PrefixOfConfigs(conf, master, i);
    var post := conf.postDelegates[i];
    if post.None? { return true; }
    var next := ConfigureDelegate(conf, master, post.value, DefaultName(post.value));
    DelStep(Configs(conf, master), d.dels, next);
    ok := d.Del(next);
  }

  /** DEL runs the same delegates in exactly the reverse order and stops at the
      first failure. */
  method RunDelegateDelChain(d: Delegates, conf: PluginConf, master: string) returns (ok: bool)
    requires d.dels == [] && d.undone == 0
    modifies d`dels, d`undone
    ensures DelsGoing(Configs(conf, master), d.dels, d.undone, ok)
    ensures ok ==> d.dels == Reverse(Configs(conf, master))
  {
    var own := if conf.delegate.Some? then conf.delegate.value else map[];
    var base := ConfigureDelegate(conf, master, own, IPVLAN_NAME);
    var i := |conf.postDelegates|;
    assert conf.postDelegates[..i] == conf.postDelegates;
    while i > 0
      invariant 0 <= i <= |conf.postDelegates|
      invariant |d.dels| + 1 + |PostConfigs(conf, master, conf.postDelegates[..i])| == |Configs(conf, master)|
      invariant DelsGoing(Configs(conf, master), d.dels, d.undone, true)
    {
      i := i - 1;
      ok := DelPost(d, conf, master, i);
      if !ok { return; }
    }
    ok := d.Del(base);
  }
}
