/** CrateDriver: which URLs the driver takes, how the query string of a URL
    becomes properties, how the path picks a default schema, and how connect
    puts these together with a new connection. */
module Driver {
  import opened Outcomes
  import opened JavaText
  import opened JavaUtil
  import opened ClientHandles
  import opened Connection

  const Protocol: string := "jdbc"
  const SubProtocol: string := "crate"
  const Prefix: string := SubProtocol + ":" + "//"
  const LongPrefix: string := Protocol + ":" + SubProtocol + ":" + "//"

  lemma PrefixesSpelledOut()
    ensures Prefix == "crate://" && LongPrefix == "jdbc:crate://"
  {
  }

  // ---------------------------------------------------------------------
  // Prefix recognition
  // ---------------------------------------------------------------------

  /** acceptsURL(url) */
  function AcceptsUrl(url: string): (accepted: bool)
    ensures accepted <==> Prefix <= url || LongPrefix <= url
  {
    StartsWith(url, Prefix) || StartsWith(url, LongPrefix)
  }

  /** The prefix test at the start of connect: the long prefix is tried
      first and removed; None means connect answers null. */
  function StripPrefix(url: string): (rest: Option<string>)
    ensures rest.Some? ==> url == LongPrefix + rest.value || url == Prefix + rest.value
    ensures rest.None? <==> !(Prefix <= url) && !(LongPrefix <= url)
  {
    if StartsWith(url, LongPrefix) then
      assert url == LongPrefix + url[|LongPrefix|..];
      Some(url[|LongPrefix|..])
    else if StartsWith(url, Prefix) then
      assert url == Prefix + url[|Prefix|..];
      Some(url[|Prefix|..])
    else None
  }

  /** connect strips a prefix exactly when acceptsURL says yes. */
  lemma AcceptsUrlIffStripped(url: string)
    ensures AcceptsUrl(url) <==> StripPrefix(url).Some?
  {
  }

  /** Stripping undoes putting either prefix in front. */
  lemma StripPrefixInverse(rest: string)
    ensures StripPrefix(LongPrefix + rest) == Some(rest)
    ensures StripPrefix(Prefix + rest) == Some(rest)
  {
    PrefixesSpelledOut();
    assert (LongPrefix + rest)[|LongPrefix|..] == rest;
    assert (Prefix + rest)[|Prefix|..] == rest;
    assert (Prefix + rest)[0] == 'c';
    assert !StartsWith(Prefix + rest, LongPrefix);
  }

  // ---------------------------------------------------------------------
  // The query string
  // ---------------------------------------------------------------------

  /** A key and the raw (still encoded) value of one query token. */
  datatype Property = Property(key: string, value: string)

  /** What a token must look like to be accepted. */
  predicate WellFormedPair(key: string, value: string) {
    key != "" && '=' !in key && value != "" && '?' !in value && '=' !in value
  }

  /** The checks parseUrl makes on one token: the key is the text before the
      first '=', the value the text after it. */
  function ParsePair(token: string): (r: Option<Property>)
    ensures r.Some? ==> token == r.value.key + "=" + r.value.value && WellFormedPair(r.value.key, r.value.value)
  {
    var eq := IndexOf(token, '=');
    if eq == -1 then None
    else
      var key := token[..eq];
      if eq + 1 < |token| then
        var value := token[eq + 1..];
        if |value| > 0 && |key| > 0 && '?' !in value && '=' !in value then
          assert token == key + "=" + value;
          Some(Property(key, value))
        else None
      else None
  }

  /** A token is accepted exactly when it is a well-formed key, '=', and value. */
  lemma ParsePairIff(token: string, key: string, value: string)
    ensures ParsePair(token) == Some(Property(key, value)) <==> token == key + "=" + value && WellFormedPair(key, value)
  {
    if token == key + "=" + value && WellFormedPair(key, value) {
      assert token[|key|] == '=';
      assert token[..|key|] == key;
      assert IndexOf(token, '=') == |key|;
      assert token[|key| + 1..] == value;
    }
    if ParsePair(token) == Some(Property(key, value)) {
      var eq := IndexOf(token, '=');
      assert token == token[..eq] + "=" + token[eq + 1..];
    }
  }

  /** The token passes the checks and its value decodes. */
  predicate Accepted(token: string, decode: string -> Option<string>) {
    ParsePair(token).Some? && decode(ParsePair(token).value.value).Some?
  }

  /** The properties after a run over some tokens, and what stopped it, if anything. */
  datatype TokenRun = TokenRun(entries: map<string, string>, failure: Option<Failure>)

  /** The tokens applied in order to the entries; the first token that is
      not accepted stops the run, and what was written before it stays. */
  function ApplyTokens(entries: map<string, string>, tokens: seq<string>, decode: string -> Option<string>): (run: TokenRun)
    ensures entries.Keys <= run.entries.Keys
    ensures run.failure.Some? ==> run.failure.value == InvalidPropertiesFormat || run.failure.value == MalformedEscape
    decreases |tokens|
  {
    if |tokens| == 0 then TokenRun(entries, None)
    else
      match ParsePair(tokens[0])
      case None => TokenRun(entries, Some(InvalidPropertiesFormat))
      case Some(p) =>
        match decode(p.value)
        case None => TokenRun(entries, Some(MalformedEscape))
        case Some(v) => ApplyTokens(entries[p.key := v], tokens[1..], decode)
  }

  /** A run over two lists is the run over the first, continued over the second. */
  lemma {:induction false} ApplyTokensAppend(entries: map<string, string>, a: seq<string>, b: seq<string>,
                                             decode: string -> Option<string>)
    ensures ApplyTokens(entries, a + b, decode)
         == (var first := ApplyTokens(entries, a, decode);
             if first.failure.Some? then first else ApplyTokens(first.entries, b, decode))
    decreases |a|
  {
    if |a| == 0 {
      assert a + b == b;
    } else {
      assert (a + b)[0] == a[0];
      assert (a + b)[1..] == a[1..] + b;
      var p := ParsePair(a[0]);
      if p.Some? && decode(p.value.value).Some? {
        ApplyTokensAppend(entries[p.value.key := decode(p.value.value).value], a[1..], b, decode);
      }
    }
  }

  /** A run succeeds exactly when every token is accepted. */
  lemma {:induction false} ApplyTokensSucceedsIff(entries: map<string, string>, tokens: seq<string>,
                                                  decode: string -> Option<string>)
    ensures ApplyTokens(entries, tokens, decode).failure.None?
            <==> forall i :: 0 <= i < |tokens| ==> Accepted(tokens[i], decode)
    decreases |tokens|
  {
    if |tokens| > 0 {
      var p := ParsePair(tokens[0]);
      if p.Some? && decode(p.value.value).Some? {
        ApplyTokensSucceedsIff(entries[p.value.key := decode(p.value.value).value], tokens[1..], decode);
        if forall i :: 0 <= i < |tokens| - 1 ==> Accepted(tokens[1..][i], decode) {
          forall i | 0 <= i < |tokens| ensures Accepted(tokens[i], decode) {
            if i > 0 { assert tokens[i] == tokens[1..][i - 1]; }
          }
        }
      }
    }
  }

  /** The first token that is not accepted stops the run; the entries written
      by the tokens before it stay (there is no rollback). */
  lemma ApplyTokensNoRollback(entries: map<string, string>, tokens: seq<string>,
                              decode: string -> Option<string>, i: nat)
    requires i < |tokens|
    requires forall j :: 0 <= j < i ==> Accepted(tokens[j], decode)
    requires !Accepted(tokens[i], decode)
    ensures ApplyTokens(entries, tokens[..i], decode).failure.None?
    ensures ApplyTokens(entries, tokens, decode).entries == ApplyTokens(entries, tokens[..i], decode).entries
    ensures ApplyTokens(entries, tokens, decode).failure
            == Some(if ParsePair(tokens[i]).None? then InvalidPropertiesFormat else MalformedEscape)
  {
    var before := tokens[..i];
    assert tokens == before + tokens[i..];
    ApplyTokensSucceedsIff(entries, before, decode);
    ApplyTokensAppend(entries, before, tokens[i..], decode);
    assert tokens[i..][0] == tokens[i];
  }

  /** A key that no token names keeps its old entry, or its absence. */
  lemma {:induction false} ApplyTokensKeepsOtherKeys(entries: map<string, string>, tokens: seq<string>,
                                                     decode: string -> Option<string>, key: string)
    requires forall i :: 0 <= i < |tokens| && ParsePair(tokens[i]).Some? ==> ParsePair(tokens[i]).value.key != key
    ensures Get(ApplyTokens(entries, tokens, decode).entries, key) == Get(entries, key)
    decreases |tokens|
  {
    if |tokens| > 0 {
      var p := ParsePair(tokens[0]);
      if p.Some? && decode(p.value.value).Some? {
        forall i | 0 <= i < |tokens| - 1 && ParsePair(tokens[1..][i]).Some?
          ensures ParsePair(tokens[1..][i]).value.key != key
        {
          assert tokens[1..][i] == tokens[i + 1];
        }
        ApplyTokensKeepsOtherKeys(entries[p.value.key := decode(p.value.value).value], tokens[1..], decode, key);
      }
    }
  }

  /** When a key occurs more than once, the last accepted token with that key wins. */
  lemma ApplyTokensLastWriteWins(entries: map<string, string>, before: seq<string>, token: string,
                                 after: seq<string>, decode: string -> Option<string>)
    requires ApplyTokens(entries, before, decode).failure.None?
    requires Accepted(token, decode)
    requires forall i :: 0 <= i < |after| && ParsePair(after[i]).Some?
                         ==> ParsePair(after[i]).value.key != ParsePair(token).value.key
    ensures Get(ApplyTokens(entries, before + [token] + after, decode).entries, ParsePair(token).value.key)
            == decode(ParsePair(token).value.value)
  {
    var p := ParsePair(token).value;
    var v := decode(p.value).value;
    var mid := ApplyTokens(entries, before, decode).entries;
    ApplyTokensAppend(entries, before, [token] + after, decode);
    assert before + [token] + after == before + ([token] + after);
    assert ([token] + after)[0] == token && ([token] + after)[1..] == after;
    ApplyTokensKeepsOtherKeys(mid[p.key := v], after, decode, p.key);
  }

  /** What parseUrl does to the properties: nothing without a '?', otherwise
      the run over the tokens of the text after the first '?'. */
  function QueryRun(entries: map<string, string>, url: string, decode: string -> Option<string>): (run: TokenRun)
    ensures '?' !in url ==> run == TokenRun(entries, None)
    ensures entries.Keys <= run.entries.Keys
  {
    var halves := SplitFirst(url, '?');
    if halves.tail.None? then TokenRun(entries, None)
    else ApplyTokens(entries, Tokenize(halves.tail.value, '&'), decode)
  }

  /** Empty tokens, from "&&" or a trailing '&', are skipped rather than rejected. */
  lemma QueryRunSkipsEmptyTokens(entries: map<string, string>, path: string, a: string, b: string,
                                 decode: string -> Option<string>)
    requires '?' !in path
    ensures QueryRun(entries, path + "?" + a + "&&" + b, decode) == QueryRun(entries, path + "?" + a + "&" + b, decode)
    ensures QueryRun(entries, path + "?" + a + "&", decode) == QueryRun(entries, path + "?" + a, decode)
  {
    assert path + "?" + a + "&&" + b == path + ['?'] + (a + ['&', '&'] + b);
    assert path + "?" + a + "&" + b == path + ['?'] + (a + ['&'] + b);
    assert path + "?" + a + "&" == path + ['?'] + (a + ['&']);
    assert path + "?" + a == path + ['?'] + a;
    SplitFirstAt(path, a + ['&', '&'] + b, '?');
    SplitFirstAt(path, a + ['&'] + b, '?');
    SplitFirstAt(path, a + ['&'], '?');
    SplitFirstAt(path, a, '?');
    TokenizeSkipsRepeatedDelimiter(a, b, '&');
    TokenizeSkipsTrailingDelimiter(a, '&');
  }

  /** parseUrl(url, info): writes the accepted tokens into the caller's
      properties in order and returns the text before the first '?'; `decode`
      is URLDecoder.decode(value, "UTF-8"), None where it throws. */
  method ParseUrl(url: string, info: Properties, decode: string -> Option<string>) returns (r: Result<string>)
    modifies info
    ensures info.entries == QueryRun(old(info.entries), url, decode).entries
    ensures r.Ok? <==> QueryRun(old(info.entries), url, decode).failure.None?
    ensures r.Ok? ==> r.value == SplitFirst(url, '?').head
    ensures r.Err? ==> r.failure == QueryRun(old(info.entries), url, decode).failure.value
    ensures '?' !in url ==> r == Ok(url) && info.entries == old(info.entries)
  {
    var halves := SplitFirst(url, '?');
    if halves.tail.Some? {
      var tokens := Tokenize(halves.tail.value, '&');
      var k := 0;
      while k < |tokens|
        invariant 0 <= k <= |tokens|
        invariant ApplyTokens(info.entries, tokens[k..], decode) == ApplyTokens(old(info.entries), tokens, decode)
      {
        assert tokens[k..][0] == tokens[k] && tokens[k..][1..] == tokens[k + 1..];
        var pair := ParsePair(tokens[k]);
        if pair.None? {
          return Err(InvalidPropertiesFormat);
        }
        var value := decode(pair.value.value);
        if value.None? {
          return Err(MalformedEscape);
        }
        info.SetProperty(pair.value.key, value.value);
        k := k + 1;
      }
    }
    r := Ok(halves.head);
  }

  // ---------------------------------------------------------------------
  // The schema path
  // ---------------------------------------------------------------------

  /** What the path (the URL without prefix and query) says about the schema. */
  datatype SchemaPath = RootPath | NoSchema | SchemaName(name: string) | TooManyParts

  /** The path "/" is left alone; any other path is split on '/' with Java's
      rules, and one part, two parts or more decide. */
  function SchemaRule(path: string): (rule: SchemaPath)
    ensures rule.RootPath? <==> path == "/"
    ensures rule.SchemaName? ==> rule.name != "" && '/' !in rule.name
  {
    if path == "/" then RootPath
    else
      var parts := Split(path, '/');
      if |parts| == 2 then SchemaName(parts[1])
      else if |parts| > 2 then TooManyParts
      else NoSchema
  }

  /** Hosts without a path name no schema, with or without one trailing '/'. */
  lemma HostsOnlyNameNoSchema(hosts: string)
    requires '/' !in hosts
    ensures SchemaRule(hosts) == NoSchema
    ensures hosts != "" ==> SchemaRule(hosts + "/") == NoSchema
  {
    if hosts != "" {
      var path := hosts + "/";
      assert path[|hosts|] == '/';
      assert path == hosts + ['/'] + "";
      SplitAllAppend(hosts, "", '/');
      SplitAllWithoutSeparator(hosts, '/');
      assert DropTrailingEmpty([hosts, ""]) == DropTrailingEmpty([hosts]);
    }
  }

  /** One segment after the hosts is the schema name, trailing '/' or not. */
  lemma OneSegmentNamesSchema(hosts: string, name: string)
    requires '/' !in hosts && '/' !in name && name != ""
    ensures SchemaRule(hosts + "/" + name) == SchemaName(name)
    ensures SchemaRule(hosts + "/" + name + "/") == SchemaName(name)
  {
    SplitTwo(hosts, name, '/');
    assert hosts + "/" + name == hosts + ['/'] + name;
    assert hosts + "/" + name + "/" == hosts + ['/'] + name + ['/'];
  }

  /** Two segments after the hosts, the last one non-empty, make the URL invalid. */
  lemma TwoSegmentsAreTooMany(hosts: string, first: string, second: string)
    requires '/' !in hosts && '/' !in first && '/' !in second && second != ""
    ensures SchemaRule(hosts + "/" + first + "/" + second) == TooManyParts
  {
    var path := hosts + "/" + first + "/" + second;
    assert path == hosts + ['/'] + (first + ['/'] + second);
    assert path[|hosts|] == '/';
    SplitAllAppend(hosts, first + ['/'] + second, '/');
    SplitAllAppend(first, second, '/');
    SplitAllWithoutSeparator(hosts, '/');
    SplitAllWithoutSeparator(first, '/');
    SplitAllWithoutSeparator(second, '/');
    assert SplitAll(path, '/') == [hosts, first, second];
  }

  /** A schema name is a non-empty segment without '/' that the path spells
      out after the hosts, followed only by '/' characters. */
  lemma SchemaNameShape(path: string)
    requires SchemaRule(path).SchemaName?
    ensures var name := SchemaRule(path).name;
            var hosts := Split(path, '/')[0];
            && name != "" && '/' !in name && '/' !in hosts
            && hosts + "/" + name <= path
            && AllSeparators(path[|hosts| + 1 + |name|..], '/')
  {
    var parts := Split(path, '/');
    SplitJoin(path, '/');
    assert Join(parts, '/') == parts[0] + "/" + parts[1];
  }

  // ---------------------------------------------------------------------
  // connect
  // ---------------------------------------------------------------------

  /** What connect gives back: null, a connection, or an exception. */
  datatype ConnectResult = NotAccepted | Connected(connection: CrateConnection) | Failed(failure: Failure)

  /** connect(url, info). The cluster's answer while connecting (`server`),
      URLDecoder.decode (`decode`) and the version comparison
      (`belowDefaultSchema`) are outside the driver and come in as parameters. */
  method Connect(url: string, info: Properties, registry: ClientHandleRegistry,
                 decode: string -> Option<string>, server: Option<string>,
                 belowDefaultSchema: Option<string> -> bool)
    returns (r: ConnectResult)
    modifies info, registry
    ensures StripPrefix(url).None? ==>
              r == NotAccepted && info.entries == old(info.entries) && registry.handles == old(registry.handles)
    ensures StripPrefix(url).Some? ==>
              var run := QueryRun(old(info.entries), StripPrefix(url).value, decode);
              var path := SplitFirst(StripPrefix(url).value, '?').head;
              && info.entries == run.entries
              && (run.failure.Some? ==> r == Failed(run.failure.value) && registry.handles == old(registry.handles))
              && (run.failure.None? ==>
                    |registry.handles| == |old(registry.handles)| + 1
                    && var handle := registry.handles[|old(registry.handles)|];
                    && registry.handles == old(registry.handles) + [handle]
                    && fresh(handle) && handle.url == path
                    // a connection that fails is closed, which signals its handle, before the exception
                    && handle.closeSignals == (if server.None? || SchemaRule(path).TooManyParts? then 1 else 0)
                    && (r.Connected? ==> r.connection.clientHandle == handle))
              && (run.failure.None? && server.None? ==> r == Failed(ConnectFailed))
              && (run.failure.None? && server.Some? && SchemaRule(path).TooManyParts? ==> r == Failed(InvalidUrl))
              && (run.failure.None? && server.Some? && !SchemaRule(path).TooManyParts? ==>
                    && r.Connected?
                    && fresh(r.connection)
                    && !r.connection.IsClosed()
                    && r.connection.properties == info
                    && !r.connection.readOnly
                    && r.connection.databaseVersion == server
                    && r.connection.schema
                       == (if SchemaRule(path).SchemaName? && !belowDefaultSchema(server)
                           then Some(SchemaRule(path).name) else None))
  {
    var rest := StripPrefix(url);
    if rest.None? {
      return NotAccepted;
    }
    var parsed := ParseUrl(rest.value, info, decode);
    if parsed.Err? {
      return Failed(parsed.failure);
    }
    var path := parsed.value;
    var handle := registry.GetHandle(path);
    var connection := new CrateConnection(handle, info);
    var connected := connection.Connect(server);
    if connected.Fail? {
      return Failed(connected.failure);
    }
    if path != "/" {
      var parts := Split(path, '/');
      if |parts| == 2 {
        var schemaSet := connection.SetSchema(Some(parts[1]), belowDefaultSchema);
      } else if |parts| > 2 {
        connection.Close();
        return Failed(InvalidUrl);
      }
      var infoSet := connection.SetAllClientInfo(info);
    }
    r := Connected(connection);
  }
}
