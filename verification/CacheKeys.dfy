/**
The string keys of the two caches of the policy evaluator: `MetricConfiguration.Hash`, the query
key of `evalMap`, and `createKey`; and the prefix eviction that relies on them.
*/
module CacheKeys {
  import opened Base64Url
  import opened Values

  /** A metric configuration; `isDefault` and `updatedAt` stand for what the hash leaves out. */
  datatype Config = Config(operator: seq<Byte>, target: Value, isDefault: bool, updatedAt: nat)

  const DASH: Byte := 45

  /** The bytes that `fmt` prints for a target value. */
  type Rendering = Value -> seq<Byte>

  function Hash(render: Rendering, config: Config): string {
    EncodeRaw(config.operator + [DASH] + render(config.target))
  }

  function QueryKey(render: Rendering, metric: string, service: string, config: Config): string {
    metric + "-" + service + "-" + Hash(render, config)
  }

  predicate DashFree(s: string) {
    '-' !in s
  }

  /** Textual form of a UUID, section 4 of RFC 9562. */
  const UUID_LENGTH: nat := 36

  /** The operators the schema admits: the pattern is ^(|<|>|<=|>=|==|isIn|allIn)$. */
  predicate AllowedOperator(op: seq<Byte>) {
    op in {[], [60], [62], [60, 61], [62, 61], [61, 61], [105, 115, 73, 110], [97, 108, 108, 73, 110]}
  }

  /** A text is split in one way only at the first separator. */
  lemma SplitAtFirst<T>(a: seq<T>, b: seq<T>, c: seq<T>, d: seq<T>, sep: T)
    requires sep !in a && sep !in c && a + [sep] + b == c + [sep] + d
    ensures a == c && b == d
  {
    var s := a + [sep] + b;
    assert s[|a|] == sep && s[|c|] == sep;
    assert |a| == |c|;
    assert a == s[..|a|] == c;
    assert b == s[|a| + 1..] == d;
  }

  /** Equal query keys come from the same metric, the same service and the same hash. */
  lemma QueryKeyDeterminesParts(render: Rendering, m: string, s: string, c: Config, m': string, s': string, c': Config)
    requires DashFree(m) && DashFree(m') && |s| == |s'| == UUID_LENGTH
    requires QueryKey(render, m, s, c) == QueryKey(render, m', s', c')
    ensures m == m' && s == s' && Hash(render, c) == Hash(render, c')
  {
    var h, h' := Hash(render, c), Hash(render, c');
    assert QueryKey(render, m, s, c) == m + ['-'] + (s + "-" + h);
    assert QueryKey(render, m', s', c') == m' + ['-'] + (s' + "-" + h');
    SplitAtFirst(m, s + "-" + h, m', s' + "-" + h', '-');
    assert (s + "-" + h)[..UUID_LENGTH] == s && (s' + "-" + h')[..UUID_LENGTH] == s';
    assert (s + "-" + h)[UUID_LENGTH + 1..] == h && (s' + "-" + h')[UUID_LENGTH + 1..] == h';
  }

  /**
  The query key determines metric, service, operator and the printed target value, and it is
  injective as far as the two target values print differently unless they are equal.
  */
  lemma QueryKeyInjective(render: Rendering, m: string, s: string, c: Config, m': string, s': string, c': Config)
    requires DashFree(m) && DashFree(m') && |s| == |s'| == UUID_LENGTH
    requires AllowedOperator(c.operator) && AllowedOperator(c'.operator)
    ensures QueryKey(render, m, s, c) == QueryKey(render, m', s', c')
        <==> m == m' && s == s' && c.operator == c'.operator && render(c.target) == render(c'.target)
    ensures (render(c.target) == render(c'.target) ==> c.target == c'.target) ==>
      (QueryKey(render, m, s, c) == QueryKey(render, m', s', c')
       <==> m == m' && s == s' && c.operator == c'.operator && c.target == c'.target)
  {
    if QueryKey(render, m, s, c) == QueryKey(render, m', s', c') {
      QueryKeyDeterminesParts(render, m, s, c, m', s', c');
      EncodeRawInjective(c.operator + [DASH] + render(c.target), c'.operator + [DASH] + render(c'.target));
      SplitAtFirst(c.operator, render(c.target), c'.operator, render(c'.target), DASH);
    }
  }

  // ---------------------------------------------------------------- eviction

  /** What `Evict` leaves: the entries whose key does not begin with the metric. */
  function Evicted<Q>(cache: map<string, Q>, metric: string): map<string, Q> {
    map k | k in cache && !(metric <= k) :: cache[k]
  }

  /** So evicting a metric by prefix reaches all its entries. */
  lemma KeyBeginsWithMetric(render: Rendering, metric: string, service: string, config: Config)
    ensures metric <= QueryKey(render, metric, service, config)
  {
    hide Hash;
    assert QueryKey(render, metric, service, config) == metric + ("-" + service + "-" + Hash(render, config));
  }

  /**
  Evicting a metric removes every entry of it, for all services and configurations, and removes an
  entry of another metric exactly when the evicted id is a prefix of that metric's id.
  */
  lemma EvictionExactly<Q>(cache: map<string, Q>, metric: string, render: Rendering, m: string, s: string, c: Config)
    requires DashFree(metric) && DashFree(m)
    requires QueryKey(render, m, s, c) in cache
    ensures QueryKey(render, m, s, c) in Evicted(cache, metric) <==> !(metric <= m)
    ensures QueryKey(render, metric, s, c) !in Evicted(cache, metric)
  {
    var rest := s + "-" + Hash(render, c);
    assert QueryKey(render, m, s, c) == m + ['-'] + rest;
    assert QueryKey(render, metric, s, c) == metric + ['-'] + rest;
    PrefixOfKey(metric, m, rest);
  }

  /** For example, evicting "AtRestEncryption" also removes what is cached for "AtRestEncryptionEnabled". */
  lemma EvictionTakesLongerIds<Q>(cache: map<string, Q>, render: Rendering, s: string, c: Config)
    requires QueryKey(render, "AtRestEncryptionEnabled", s, c) in cache
    ensures QueryKey(render, "AtRestEncryptionEnabled", s, c) !in Evicted(cache, "AtRestEncryption")
  {
    hide QueryKey, Evicted;
    assert "AtRestEncryptionEnabled"[..16] == "AtRestEncryption";
    EvictionExactly(cache, "AtRestEncryption", render, "AtRestEncryptionEnabled", s, c);
  }

  /** A dash-free text is a prefix of a key exactly when it is a prefix of the key's metric. */
  lemma PrefixOfKey(metric: string, m: string, rest: string)
    requires DashFree(metric)
    ensures metric <= m + ['-'] + rest <==> metric <= m
    ensures metric <= metric + ['-'] + rest
  {
    var key := m + ['-'] + rest;
    if |metric| <= |m| {
      assert key[..|metric|] == m[..|metric|];
    } else {
      assert key[|m|] == '-';
      assert metric[|m|] in metric;
    }
  }

  // ---------------------------------------------------------------- applicability keys

  function Join(parts: seq<string>): string
    requires parts != []
  {
    if |parts| == 1 then parts[0] else parts[0] + "-" + Join(parts[1..])
  }

  function Kept(c: char): string {
    if c == ' ' then "" else [c]
  }

  function WithoutSpaces(s: string): string {
    if s == "" then "" else Kept(s[0]) + WithoutSpaces(s[1..])
  }

  /** `createKey` */
  function ApplicabilityKey(types: seq<string>, tool: string): string {
    WithoutSpaces(Join(types + [tool]))
  }

  function AllWithoutSpaces(parts: seq<string>): seq<string> {
    seq(|parts|, i requires 0 <= i < |parts| => WithoutSpaces(parts[i]))
  }

  lemma WithoutSpacesStep(s: string)
    ensures WithoutSpaces(s) == if s == "" then "" else Kept(s[0]) + WithoutSpaces(s[1..])
  {
  }

  lemma {:induction false} WithoutSpacesConcat(a: string, b: string)
    ensures WithoutSpaces(a + b) == WithoutSpaces(a) + WithoutSpaces(b)
  {
    hide WithoutSpaces, Kept;
    WithoutSpacesStep(a);
    if a == "" {
      assert a + b == b;
    } else {
      WithoutSpacesConcat(a[1..], b);
      WithoutSpacesStep(a + b);
      assert (a + b)[0] == a[0] && (a + b)[1..] == a[1..] + b;
      var head, x, y := Kept(a[0]), WithoutSpaces(a[1..]), WithoutSpaces(b);
      assert head + (x + y) == head + x + y;
    }
  }

  /** Exactly the spaces go: none is left, a string without any is untouched, and taking one out changes nothing. */
  lemma SpacesVanish(a: string, b: string)
    ensures ' ' !in WithoutSpaces(a)
    ensures ' ' !in a ==> WithoutSpaces(a) == a
    ensures WithoutSpaces(a + " " + b) == WithoutSpaces(a + b)
  {
    NoSpaceLeft(a);
    WithoutSpacesConcat(a + " ", b);
    WithoutSpacesConcat(a, " ");
    WithoutSpacesConcat(a, b);
  }

  lemma {:induction false} NoSpaceLeft(s: string)
    ensures ' ' !in WithoutSpaces(s)
    ensures ' ' !in s ==> WithoutSpaces(s) == s
  {
    if s == "" {
    } else {
      NoSpaceLeft(s[1..]);
      assert s == [s[0]] + s[1..];
    }
  }

  lemma {:induction false} WithoutSpacesDashFree(s: string)
    requires DashFree(s)
    ensures DashFree(WithoutSpaces(s))
  {
    if s == "" {
    } else {
      WithoutSpacesDashFree(s[1..]);
    }
  }

  /** Removing spaces from the joined text is joining the parts without spaces. */
  lemma {:induction false} SpacesThroughJoin(parts: seq<string>)
    requires parts != []
    ensures WithoutSpaces(Join(parts)) == Join(AllWithoutSpaces(parts))
  {
    if |parts| == 1 {
    } else {
      SpacesThroughJoin(parts[1..]);
      WithoutSpacesConcat(parts[0] + "-", Join(parts[1..]));
      WithoutSpacesConcat(parts[0], "-");
      assert WithoutSpaces("-") == "-";
      assert AllWithoutSpaces(parts)[1..] == AllWithoutSpaces(parts[1..]);
    }
  }

  predicate AllDashFree(parts: seq<string>) {
    forall i :: 0 <= i < |parts| ==> DashFree(parts[i])
  }

  lemma JoinHasDash(parts: seq<string>)
    requires |parts| > 1
    ensures '-' in Join(parts)
  {
  }

  lemma {:induction false} JoinInjective(a: seq<string>, b: seq<string>)
    requires a != [] && b != [] && AllDashFree(a) && AllDashFree(b) && Join(a) == Join(b)
    ensures a == b
  {
    if |a| > 1 && |b| > 1 {
      SplitAtFirst(a[0], Join(a[1..]), b[0], Join(b[1..]), '-');
      JoinInjective(a[1..], b[1..]);
      assert a == [a[0]] + a[1..] && b == [b[0]] + b[1..];
    } else if |a| > 1 {
      JoinHasDash(a);
    } else if |b| > 1 {
      JoinHasDash(b);
    }
  }

  lemma StripKeepsDashFree(parts: seq<string>)
    requires AllDashFree(parts)
    ensures AllDashFree(AllWithoutSpaces(parts))
  {
    forall i | 0 <= i < |parts|
      ensures DashFree(AllWithoutSpaces(parts)[i])
    {
      WithoutSpacesDashFree(parts[i]);
    }
  }

  lemma StrippedKey(types: seq<string>, tool: string)
    requires AllDashFree(types) && DashFree(tool)
    ensures var parts := AllWithoutSpaces(types) + [WithoutSpaces(tool)];
            AllDashFree(parts) && ApplicabilityKey(types, tool) == Join(parts)
  {
    hide Join, WithoutSpaces;
    SpacesThroughJoin(types + [tool]);
    StripKeepsDashFree(types + [tool]);
    assert AllWithoutSpaces(types + [tool]) == AllWithoutSpaces(types) + [WithoutSpaces(tool)];
  }

  /** Two evidences share an applicability key exactly when types and tool agree up to spaces. */
  lemma ApplicabilityKeyExactly(types: seq<string>, tool: string, types': seq<string>, tool': string)
    requires AllDashFree(types) && AllDashFree(types') && DashFree(tool) && DashFree(tool')
    ensures ApplicabilityKey(types, tool) == ApplicabilityKey(types', tool')
        <==> AllWithoutSpaces(types) == AllWithoutSpaces(types') && WithoutSpaces(tool) == WithoutSpaces(tool')
  {
    hide Join, WithoutSpaces, AllWithoutSpaces, AllDashFree, ApplicabilityKey;
    var a, b := AllWithoutSpaces(types) + [WithoutSpaces(tool)], AllWithoutSpaces(types') + [WithoutSpaces(tool')];
    StrippedKey(types, tool);
    StrippedKey(types', tool');
    if Join(a) == Join(b) {
      JoinInjective(a, b);
      assert a[..|a| - 1] == AllWithoutSpaces(types) && b[..|b| - 1] == AllWithoutSpaces(types');
      assert a[|a| - 1] == WithoutSpaces(tool) && b[|b| - 1] == WithoutSpaces(tool');
    }
  }

  // ---------------------------------------------------------------- keys with dashes

  /** The parts of `s` between its dashes. */
  function Split(s: string): (parts: seq<string>)
    ensures parts != []
  {
    if s == "" then [""]
    else
      var rest := Split(s[1..]);
      if s[0] == '-' then [""] + rest else [[s[0]] + rest[0]] + rest[1..]
  }

  lemma JoinStep(parts: seq<string>)
    requires parts != []
    ensures Join(parts) == if |parts| == 1 then parts[0] else parts[0] + "-" + Join(parts[1..])
  {
  }

  lemma Associative(a: string, b: string, c: string)
    ensures a + b + c == a + (b + c)
  {
  }

  /** One more character in front of the first part is one in front of the joined text. */
  lemma JoinLonger(c: char, parts: seq<string>)
    requires parts != []
    ensures Join([[c] + parts[0]] + parts[1..]) == [c] + Join(parts)
  {
    hide Join;
    var longer := [[c] + parts[0]] + parts[1..];
    JoinStep(parts);
    JoinStep(longer);
    if |parts| > 1 {
      assert longer[1..] == parts[1..];
      Associative([c], parts[0], "-");
      Associative([c], parts[0] + "-", Join(parts[1..]));
    }
  }

  /** An empty part in front is a dash in front of the joined text. */
  lemma JoinEmpty(parts: seq<string>)
    requires parts != []
    ensures Join([""] + parts) == "-" + Join(parts)
  {
    hide Join;
    JoinStep([""] + parts);
    assert ([""] + parts)[1..] == parts;
    Associative("", "-", Join(parts));
  }

  lemma {:induction false} JoinSplit(s: string)
    ensures AllDashFree(Split(s)) && Join(Split(s)) == s
  {
    if s == "" {
    } else {
      hide Join;
      JoinSplit(s[1..]);
      JoinLonger(s[0], Split(s[1..]));
      JoinEmpty(Split(s[1..]));
      assert s == [s[0]] + s[1..];
    }
  }

  lemma {:induction false} JoinConcat(a: seq<string>, b: seq<string>)
    requires a != [] && b != []
    ensures Join(a + b) == Join(a) + "-" + Join(b)
  {
    assert (a + b)[0] == a[0] && (a + b)[1..] == a[1..] + b;
    if |a| > 1 {
      JoinConcat(a[1..], b);
      var x, y, z := a[0] + "-", Join(a[1..]), "-" + Join(b);
      assert x + (y + z) == x + y + z;
      assert y + "-" + Join(b) == y + z && Join(a) + "-" + Join(b) == Join(a) + z;
    } else {
      assert a[1..] + b == b;
    }
  }

  /** All parts, each split at its own dashes. */
  function Pieces(parts: seq<string>): (pieces: seq<string>)
    requires parts != []
    ensures pieces != []
  {
    if |parts| == 1 then Split(parts[0]) else Split(parts[0]) + Pieces(parts[1..])
  }

  lemma {:induction false} JoinPieces(parts: seq<string>)
    requires parts != []
    ensures AllDashFree(Pieces(parts)) && Join(Pieces(parts)) == Join(parts)
  {
    JoinSplit(parts[0]);
    if |parts| == 1 {
    } else {
      JoinPieces(parts[1..]);
      JoinConcat(Split(parts[0]), Pieces(parts[1..]));
    }
  }

  /** For any types and tools: keys are equal exactly when the pieces between all dashes are. */
  lemma KeysCollideExactly(types: seq<string>, tool: string, types': seq<string>, tool': string)
    ensures ApplicabilityKey(types, tool) == ApplicabilityKey(types', tool')
        <==> Pieces(AllWithoutSpaces(types + [tool])) == Pieces(AllWithoutSpaces(types' + [tool']))
  {
    hide Join, WithoutSpaces, Pieces, AllDashFree;
    SpacesThroughJoin(types + [tool]);
    SpacesThroughJoin(types' + [tool']);
    JoinPieces(AllWithoutSpaces(types + [tool]));
    JoinPieces(AllWithoutSpaces(types' + [tool']));
    if ApplicabilityKey(types, tool) == ApplicabilityKey(types', tool') {
      JoinInjective(Pieces(AllWithoutSpaces(types + [tool])), Pieces(AllWithoutSpaces(types' + [tool'])));
    }
  }

  /** With dashes the key is ambiguous: a tool "b-c" on type "a" is taken for tool "c" on types "a", "b". */
  lemma DashesCollide()
    ensures ApplicabilityKey(["a"], "b-c") == ApplicabilityKey(["a", "b"], "c")
  {
    assert ["a"] + ["b-c"] == ["a", "b-c"] && ["a", "b"] + ["c"] == ["a", "b", "c"];
    assert ["a", "b", "c"][1..] == ["b", "c"] && ["b", "c"][1..] == ["c"] && ["a", "b-c"][1..] == ["b-c"];
    assert Join(["b", "c"]) == "b-c";
    assert Join(["a", "b-c"]) == "a-b-c" == Join(["a", "b", "c"]);
  }
}
