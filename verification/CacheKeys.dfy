/** The keys of the answer cache (`_generate_cache_key`): when two requests share one. The hash is any
    injective one. */
module CacheKeys {
  import opened Digits
  import opened FieldJoins

  datatype KeyConfig = KeyConfig(model: string, baseUrl: string, temperature: string, policy: string)

  predicate OneLine(s: string) {
    forall i :: 0 <= i < |s| ==> s[i] != '\n'
  }

  predicate OneLineConfig(c: KeyConfig) {
    OneLine(c.model) && OneLine(c.baseUrl) && OneLine(c.temperature) && OneLine(c.policy)
  }

  function Line(text: string, rest: string): string {
    text + ("\n" + rest)
  }

  /** What `_generate_cache_key` hashes. */
  function Material(c: KeyConfig, actor: nat, query: string): string {
    Line("tenant:" + NatText(actor),
    Line("model:" + c.model,
    Line("base_url:" + c.baseUrl,
    Line("temperature:" + c.temperature,
    Line("tool_policy:4:" + c.policy, "query:" + query)))))
  }

  function CacheKey(hash: string -> string, c: KeyConfig, actor: nat, query: string): string {
    "agent:zero-tool-v1:" + hash(Material(c, actor, query))
  }

  ghost predicate Injective(hash: string -> string) {
    forall x, y :: hash(x) == hash(y) ==> x == y
  }

  /** The first line of a text and what follows it are determined by the text. */
  lemma {:induction false} LinesSplit(a: string, rest: string, b: string, rest': string)
    requires OneLine(a) && OneLine(b) && Line(a, rest) == Line(b, rest')
    ensures a == b && rest == rest'
    decreases |a|
  {
    var s, t := Line(a, rest), Line(b, rest');
    assert s[0] == (if a == "" then '\n' else a[0]) && t[0] == (if b == "" then '\n' else b[0]);
    if a == "" {
      assert s[1..] == rest && t[1..] == rest';
    } else {
      assert s[1..] == Line(a[1..], rest) && t[1..] == Line(b[1..], rest');
      LinesSplit(a[1..], rest, b[1..], rest');
      assert a == [a[0]] + a[1..] && b == [b[0]] + b[1..];
    }
  }

  lemma FieldSplits(field: string, a: string, b: string)
    requires field + a == field + b
    ensures a == b
  {
    assert (field + a)[|field|..] == a;
    assert (field + b)[|field|..] == b;
  }

  lemma FieldLine(field: string, a: string, rest: string, b: string, rest': string)
    requires OneLine(field + a) && OneLine(field + b)
    requires Line(field + a, rest) == Line(field + b, rest')
    ensures a == b && rest == rest'
  {
    LinesSplit(field + a, rest, field + b, rest');
    FieldSplits(field, a, b);
  }

  lemma TenantLine(actor: nat, rest: string, actor': nat, rest': string)
    requires Line("tenant:" + NatText(actor), rest) == Line("tenant:" + NatText(actor'), rest')
    ensures actor == actor' && rest == rest'
  {
    FieldLine("tenant:", NatText(actor), rest, NatText(actor'), rest');
    ValueOfNatText(actor);
    ValueOfNatText(actor');
  }

  lemma MaterialIsInjective(c: KeyConfig, actor: nat, query: string, c': KeyConfig, actor': nat, query': string)
    requires OneLineConfig(c) && OneLineConfig(c') && Material(c, actor, query) == Material(c', actor', query')
    ensures c == c' && actor == actor' && query == query'
  {
    var r5, r5' := "query:" + query, "query:" + query';
    var r4, r4' := Line("tool_policy:4:" + c.policy, r5), Line("tool_policy:4:" + c'.policy, r5');
    var r3, r3' := Line("temperature:" + c.temperature, r4), Line("temperature:" + c'.temperature, r4');
    var r2, r2' := Line("base_url:" + c.baseUrl, r3), Line("base_url:" + c'.baseUrl, r3');
    var r1, r1' := Line("model:" + c.model, r2), Line("model:" + c'.model, r2');
    TenantLine(actor, r1, actor', r1');
    FieldLine("model:", c.model, r2, c'.model, r2');
    FieldLine("base_url:", c.baseUrl, r3, c'.baseUrl, r3');
    FieldLine("temperature:", c.temperature, r4, c'.temperature, r4');
    FieldLine("tool_policy:4:", c.policy, r5, c'.policy, r5');
    FieldSplits("query:", query, query');
  }

  /** Two cache keys are equal only for the same tenant, the same query and the same policy,
      however many lines the queries have, as long as the settings are single lines. */
  lemma KeyIsInjective(hash: string -> string, c: KeyConfig, actor: nat, query: string,
                       c': KeyConfig, actor': nat, query': string)
    requires Injective(hash) && OneLineConfig(c) && OneLineConfig(c')
    ensures CacheKey(hash, c, actor, query) == CacheKey(hash, c', actor', query')
            <==> c == c' && actor == actor' && query == query'
  {
    if CacheKey(hash, c, actor, query) == CacheKey(hash, c', actor', query') {
      FieldSplits("agent:zero-tool-v1:", hash(Material(c, actor, query)), hash(Material(c', actor', query')));
      MaterialIsInjective(c, actor, query, c', actor', query');
    }
  }

  // ---- which settings a key confuses ----

  function Settings(c: KeyConfig): seq<string> {
    [c.model, c.baseUrl, c.temperature, c.policy]
  }

  function SettingSeps(): seq<string> {
    ["\n" + "base_url:", "\n" + "temperature:", "\n" + "tool_policy:4:"]
  }

  function QuerySep(): string {
    "\n" + "query:"
  }

  lemma SeparatorsAre()
    ensures AreSeparators(SettingSeps()) && AreSeparators(FieldSeps())
  {
    OneLineMakesSeparator("base_url:");
    OneLineMakesSeparator("temperature:");
    OneLineMakesSeparator("tool_policy:4:");
    OneLineMakesSeparator("query:");
  }

  lemma OneLineMakesSeparator(name: string)
    requires OneLine(name)
    ensures IsSeparator("\n" + name)
  {
    forall i | 0 < i < |"\n" + name| ensures ("\n" + name)[i] != '\n' { assert ("\n" + name)[i] == name[i - 1]; }
  }

  lemma {:induction false} JoinedPrefix(fields: seq<string>, last: string, seps: seq<string>, sep: string, k: nat)
    requires k < |fields| && k <= |seps|
    ensures Joined(fields + [last], seps + [sep], k) == Joined(fields, seps, k)
  {
    if k > 0 { JoinedPrefix(fields, last, seps, sep, k - 1); }
  }

  lemma LineJoins(text: string, name: string, field: string, rest: string)
    ensures Line(text, Line(name + field, rest)) == Line(text + ("\n" + name) + field, rest)
    ensures Line(text, name + field) == text + ("\n" + name) + field
  {
  }

  /** Lines that begin with a name each are joined by these names. */
  lemma LinesJoin(f: seq<string>, names: seq<string>)
    requires |f| == 5 && |names| == 4
    ensures Line(f[0], Line(names[0] + f[1], Line(names[1] + f[2], Line(names[2] + f[3], names[3] + f[4]))))
         == Joined(f, ["\n" + names[0], "\n" + names[1], "\n" + names[2], "\n" + names[3]], 4)
  {
    var seps := ["\n" + names[0], "\n" + names[1], "\n" + names[2], "\n" + names[3]];
    var r3 := names[3] + f[4];
    var r2 := Line(names[2] + f[3], r3);
    var r1 := Line(names[1] + f[2], r2);
    LineJoins(f[0], names[0], f[1], r1);
    assert Joined(f, seps, 1) == f[0] + seps[0] + f[1];
    LineJoins(Joined(f, seps, 1), names[1], f[2], r2);
    assert Joined(f, seps, 2) == Joined(f, seps, 1) + seps[1] + f[2];
    LineJoins(Joined(f, seps, 2), names[2], f[3], r3);
    assert Joined(f, seps, 3) == Joined(f, seps, 2) + seps[2] + f[3];
    LineJoins(Joined(f, seps, 3), names[3], f[4], "");
    assert Joined(f, seps, 4) == Joined(f, seps, 3) + seps[3] + f[4];
  }

  lemma {:induction false} HeadMoves(head: string, f: seq<string>, seps: seq<string>, k: nat)
    requires k < |f| && k <= |seps|
    ensures Joined(f[0 := head + f[0]], seps, k) == head + Joined(f, seps, k)
  {
    if k > 0 {
      HeadMoves(head, f, seps, k - 1);
      var front := Joined(f, seps, k - 1);
      assert head + front + seps[k - 1] + f[k] == head + (front + seps[k - 1] + f[k]);
    }
  }

  function Fields(c: KeyConfig, query: string): seq<string> {
    Settings(c) + [query]
  }

  function FieldSeps(): seq<string> {
    SettingSeps() + [QuerySep()]
  }

  /** The text that is hashed: settings and query, joined by their names. */
  lemma MaterialIsJoined(c: KeyConfig, actor: nat, query: string)
    ensures Material(c, actor, query)
         == Line("tenant:" + NatText(actor), "model:" + Joined(Fields(c, query), FieldSeps(), 4))
  {
    var fields := Fields(c, query);
    var headed := fields[0 := "model:" + fields[0]];
    assert headed == ["model:" + c.model, c.baseUrl, c.temperature, c.policy, query];
    var names := ["base_url:", "temperature:", "tool_policy:4:", "query:"];
    LinesJoin(headed, names);
    assert FieldSeps() == ["\n" + names[0], "\n" + names[1], "\n" + names[2], "\n" + names[3]];
    HeadMoves("model:", fields, FieldSeps(), 4);
  }

  lemma SameKeyIffSameText(hash: string -> string, c: KeyConfig, actor: nat, query: string,
                           c': KeyConfig, actor': nat, query': string)
    requires Injective(hash)
    ensures CacheKey(hash, c, actor, query) == CacheKey(hash, c', actor', query') <==>
              actor == actor' && SameText(Fields(c, query), Fields(c', query'), FieldSeps())
  {
    MaterialIsJoined(c, actor, query);
    MaterialIsJoined(c', actor', query');
    var text, text' := Joined(Fields(c, query), FieldSeps(), 4), Joined(Fields(c', query'), FieldSeps(), 4);
    if CacheKey(hash, c, actor, query) == CacheKey(hash, c', actor', query') {
      FieldSplits("agent:zero-tool-v1:", hash(Material(c, actor, query)), hash(Material(c', actor', query')));
      TenantLine(actor, "model:" + text, actor', "model:" + text');
      FieldSplits("model:", text, text');
    }
  }

  /** The same query behind the settings tells no settings apart, and joins none. */
  lemma SameQuery(c: KeyConfig, c': KeyConfig, query: string)
    ensures SameText(Fields(c, query), Fields(c', query), FieldSeps())
            <==> SameText(Settings(c), Settings(c'), SettingSeps())
  {
    JoinedPrefix(Settings(c), query, SettingSeps(), QuerySep(), 3);
    JoinedPrefix(Settings(c'), query, SettingSeps(), QuerySep(), 3);
    var (a, b) := (Joined(Settings(c), SettingSeps(), 3), Joined(Settings(c'), SettingSeps(), 3));
    assert Joined(Fields(c, query), FieldSeps(), 4) == a + QuerySep() + query;
    assert Joined(Fields(c', query), FieldSeps(), 4) == b + QuerySep() + query;
    SameTail(a, b, QuerySep(), query);
  }

  lemma SameTail(a: string, b: string, sep: string, tail: string)
    ensures a + sep + tail == b + sep + tail <==> a == b
  {
    assert (a + sep + tail)[..|a|] == a && (b + sep + tail)[..|b|] == b;
    if a + sep + tail == b + sep + tail { assert |a| == |b|; }
  }

  /** Other settings have the same key for the same tenant and query. */
  ghost predicate SharesKey(hash: string -> string, c: KeyConfig, actor: nat, query: string) {
    exists c' :: c' != c && CacheKey(hash, c', actor, query) == CacheKey(hash, c, actor, query)
  }

  predicate SettingsStray(c: KeyConfig) {
    var seps := SettingSeps();
    || Has(c.model, seps[0]) || Has(c.baseUrl, seps[0])
    || Has(c.baseUrl, seps[1]) || Has(c.temperature, seps[1])
    || Has(c.temperature, seps[2]) || Has(c.policy, seps[2])
  }

  lemma StrayByIndex(c: KeyConfig)
    ensures SettingsStray(c) <==> exists k :: 0 <= k < |SettingSeps()| && Strays(Settings(c), SettingSeps(), k)
  {
    var (f, seps) := (Settings(c), SettingSeps());
    assert Strays(f, seps, 0) <==> Has(c.model, seps[0]) || Has(c.baseUrl, seps[0]);
    assert Strays(f, seps, 1) <==> Has(c.baseUrl, seps[1]) || Has(c.temperature, seps[1]);
    assert Strays(f, seps, 2) <==> Has(c.temperature, seps[2]) || Has(c.policy, seps[2]);
  }

  lemma SharesKeyIffAmbiguous(hash: string -> string, c: KeyConfig, actor: nat, query: string)
    requires Injective(hash)
    ensures SharesKey(hash, c, actor, query) <==> Ambiguous(Settings(c), SettingSeps())
  {
    if SharesKey(hash, c, actor, query) {
      var c' :| c' != c && CacheKey(hash, c', actor, query) == CacheKey(hash, c, actor, query);
      SharedMeansAmbiguous(hash, c, c', actor, query);
    } else if Ambiguous(Settings(c), SettingSeps()) {
      OtherSettings(hash, c, actor, query);
    }
  }

  lemma SharedMeansAmbiguous(hash: string -> string, c: KeyConfig, c': KeyConfig, actor: nat, query: string)
    requires Injective(hash) && c' != c && CacheKey(hash, c', actor, query) == CacheKey(hash, c, actor, query)
    ensures Ambiguous(Settings(c), SettingSeps())
  {
    SameKeyIffSameText(hash, c, actor, query, c', actor, query);
    SameQuery(c, c', query);
    SettingsDiffer(c, c');
  }

  lemma OtherSettings(hash: string -> string, c: KeyConfig, actor: nat, query: string)
    requires Injective(hash) && Ambiguous(Settings(c), SettingSeps())
    ensures SharesKey(hash, c, actor, query)
  {
    var settings := Settings(c);
    var other :| |other| == |settings| && other != settings && SameText(settings, other, SettingSeps());
    var c' := KeyConfig(other[0], other[1], other[2], other[3]);
    assert Settings(c') == other;
    SameQuery(c, c', query);
    SameKeyIffSameText(hash, c, actor, query, c', actor, query);
  }

  lemma SettingsDiffer(c: KeyConfig, c': KeyConfig)
    ensures Settings(c) == Settings(c') <==> c == c'
  {
    var (s, t) := (Settings(c), Settings(c'));
    if s == t { assert s[0] == t[0] && s[1] == t[1] && s[2] == t[2] && s[3] == t[3]; }
  }

  /** For one tenant and query, other settings share the key if and only if the name of a field,
      at the start of a line, occurs in a setting next to that field. */
  lemma SharesKeyIff(hash: string -> string, c: KeyConfig, actor: nat, query: string)
    requires Injective(hash)
    ensures SharesKey(hash, c, actor, query) <==> SettingsStray(c)
  {
    SharesKeyIffAmbiguous(hash, c, actor, query);
    SeparatorsAre();
    AmbiguousIffStray(Settings(c), SettingSeps());
    StrayByIndex(c);
  }

  /** What a key is made for. */
  datatype Request = Request(config: KeyConfig, actor: nat, query: string)

  function RequestKey(hash: string -> string, r: Request): string {
    CacheKey(hash, r.config, r.actor, r.query)
  }

  /** Another tenant, other settings or another query have the same key. */
  ghost predicate SharesKeyWithAny(hash: string -> string, r: Request) {
    exists r' :: r' != r && RequestKey(hash, r') == RequestKey(hash, r)
  }

  lemma SharesWithAnyIffAmbiguous(hash: string -> string, r: Request)
    requires Injective(hash)
    ensures SharesKeyWithAny(hash, r) <==> Ambiguous(Fields(r.config, r.query), FieldSeps())
  {
    if SharesKeyWithAny(hash, r) {
      var r' :| r' != r && RequestKey(hash, r') == RequestKey(hash, r);
      SameKeyIffSameText(hash, r.config, r.actor, r.query, r'.config, r'.actor, r'.query);
      FieldsDiffer(r, r');
    }
    if Ambiguous(Fields(r.config, r.query), FieldSeps()) { OtherRequest(hash, r); }
  }

  lemma OtherRequest(hash: string -> string, r: Request)
    requires Injective(hash) && Ambiguous(Fields(r.config, r.query), FieldSeps())
    ensures SharesKeyWithAny(hash, r)
  {
    var fields := Fields(r.config, r.query);
    var other :| |other| == |fields| && other != fields && SameText(fields, other, FieldSeps());
    var r' := Request(KeyConfig(other[0], other[1], other[2], other[3]), r.actor, other[4]);
    assert Fields(r'.config, r'.query) == other;
    SameKeyIffSameText(hash, r.config, r.actor, r.query, r'.config, r'.actor, r'.query);
    assert RequestKey(hash, r') == RequestKey(hash, r);
  }

  lemma FieldsDiffer(r: Request, r': Request)
    ensures Fields(r.config, r.query) == Fields(r'.config, r'.query) <==> r.config == r'.config && r.query == r'.query
  {
    var (s, t) := (Fields(r.config, r.query), Fields(r'.config, r'.query));
    if s == t {
      assert s[4] == t[4] && s[..4] == t[..4];
      assert s[..4] == Settings(r.config) && t[..4] == Settings(r'.config);
      SettingsDiffer(r.config, r'.config);
    }
  }

  lemma AllStrayByIndex(r: Request)
    ensures SettingsStray(r.config) || Has(r.config.policy, QuerySep()) || Has(r.query, QuerySep()) <==>
      exists k :: 0 <= k < |FieldSeps()| && Strays(Fields(r.config, r.query), FieldSeps(), k)
  {
    var (fields, seps) := (Fields(r.config, r.query), FieldSeps());
    StrayByIndex(r.config);
    forall k | 0 <= k < 3 ensures Strays(fields, seps, k) <==> Strays(Settings(r.config), SettingSeps(), k) { }
    assert Strays(fields, seps, 3) <==> Has(r.config.policy, QuerySep()) || Has(r.query, QuerySep());
  }

  /** Another request of any kind shares the key if and only if such a name occurs in a setting,
      or that of the query in the policy or in the query itself. */
  lemma SharesKeyWithAnyIff(hash: string -> string, r: Request)
    requires Injective(hash)
    ensures SharesKeyWithAny(hash, r) <==>
              SettingsStray(r.config) || Has(r.config.policy, QuerySep()) || Has(r.query, QuerySep())
  {
    SharesWithAnyIffAmbiguous(hash, r);
    SeparatorsAre();
    AmbiguousIffStray(Fields(r.config, r.query), FieldSeps());
    AllStrayByIndex(r);
  }

  /** Two such settings: wherever the name of the field is taken to stand, every key is the same. */
  lemma LineBreaksConfuseSettings(hash: string -> string, c: KeyConfig, u: string, actor: nat, query: string)
    ensures var moved := SettingSeps()[0];
      var (a, b) := (c.(model := c.model + moved + u), c.(baseUrl := u + moved + c.baseUrl));
      a != b && CacheKey(hash, a, actor, query) == CacheKey(hash, b, actor, query)
  {
    var moved := SettingSeps()[0];
    var (a, b) := (c.(model := c.model + moved + u), c.(baseUrl := u + moved + c.baseUrl));
    assert |a.model| > |b.model|;
    TwoJoined(Fields(a, query), FieldSeps());
    TwoJoined(Fields(b, query), FieldSeps());
    assert c.model + moved + u + moved + c.baseUrl == c.model + moved + (u + moved + c.baseUrl);
    SameAfter(Fields(a, query), Fields(b, query), FieldSeps(), 1, 4);
    MaterialIsJoined(a, actor, query);
    MaterialIsJoined(b, actor, query);
  }

  lemma TwoJoined(f: seq<string>, seps: seq<string>)
    requires |f| > 1 && |seps| > 0
    ensures Joined(f, seps, 1) == f[0] + seps[0] + f[1]
  {
  }

  /** Under one configuration, whatever it is, tenants and queries never share a key. */
  lemma KeySeparatesTenantsAndQueries(hash: string -> string, c: KeyConfig, actor: nat, query: string,
                                      actor': nat, query': string)
    requires Injective(hash)
    ensures CacheKey(hash, c, actor, query) == CacheKey(hash, c, actor', query')
            <==> actor == actor' && query == query'
  {
    if CacheKey(hash, c, actor, query) == CacheKey(hash, c, actor', query') {
      FieldSplits("agent:zero-tool-v1:", hash(Material(c, actor, query)), hash(Material(c, actor', query')));
      var last, last' := "query:" + query, "query:" + query';
      var r4, r4' := Line("tool_policy:4:" + c.policy, last), Line("tool_policy:4:" + c.policy, last');
      var r3, r3' := Line("temperature:" + c.temperature, r4), Line("temperature:" + c.temperature, r4');
      var r2, r2' := Line("base_url:" + c.baseUrl, r3), Line("base_url:" + c.baseUrl, r3');
      TenantLine(actor, Line("model:" + c.model, r2), actor', Line("model:" + c.model, r2'));
      SameHead("model:" + c.model, r2, r2');
      SameHead("base_url:" + c.baseUrl, r3, r3');
      SameHead("temperature:" + c.temperature, r4, r4');
      SameHead("tool_policy:4:" + c.policy, "query:" + query, "query:" + query');
      FieldSplits("query:", query, query');
    }
  }

  lemma SameHead(head: string, rest: string, rest': string)
    requires Line(head, rest) == Line(head, rest')
    ensures rest == rest'
  {
    FieldSplits(head, "\n" + rest, "\n" + rest');
    FieldSplits("\n", rest, rest');
  }
}
