/** Header rewriting of the proxy, after sections 5.7.1 and 6.1 of RFC 7230. */
module Proxy {
  import opened Types

  /** One header with the lines received for it. */
  datatype Header = Header(name: string, lines: seq<string>)

  function LowerChar(c: char): char {
    if 'A' <= c <= 'Z' then (c as int + 32) as char else c
  }

  function Lower(s: string): (r: string)
    ensures |r| == |s|
  {
    if s == "" then "" else [LowerChar(s[0])] + Lower(s[1..])
  }

  predicate Same(a: string, b: string) { Lower(a) == Lower(b) }

  lemma {:induction false} LowerAt(s: string, i: nat)
    requires i < |s|
    ensures Lower(s)[i] == LowerChar(s[i])
  {
    if i > 0 { LowerAt(s[1..], i - 1); }
  }

  lemma {:induction false} SameChars(a: string, b: string)
    ensures Same(a, b) <==> |a| == |b| && forall i :: 0 <= i < |a| ==> LowerChar(a[i]) == LowerChar(b[i])
  {
    var x, y := Lower(a), Lower(b);
    if |a| == |b| {
      forall i | 0 <= i < |a| ensures x[i] == LowerChar(a[i]) && y[i] == LowerChar(b[i]) {
        LowerAt(a, i);
        LowerAt(b, i);
      }
      if forall i :: 0 <= i < |a| ==> LowerChar(a[i]) == LowerChar(b[i]) {
        assert forall i :: 0 <= i < |x| ==> x[i] == y[i];
        assert x == y;
      }
      if x == y {
        forall i | 0 <= i < |a| ensures LowerChar(a[i]) == LowerChar(b[i]) {
          assert x[i] == y[i];
        }
      }
    }
  }

  /** The characters are equal or the two cases of one letter. */
  predicate EqualUpToCase(c: char, d: char) {
    || c == d
    || ('A' <= c <= 'Z' && d as int - c as int == 32)
    || ('A' <= d <= 'Z' && c as int - d as int == 32)
  }

  /** Two names are the same exactly when they differ at most in the case of letters. */
  lemma {:induction false} SameUpToCase(a: string, b: string)
    ensures Same(a, b) <==> |a| == |b| && forall i :: 0 <= i < |a| ==> EqualUpToCase(a[i], b[i])
  {
    SameChars(a, b);
    if |a| == |b| {
      forall i | 0 <= i < |a| ensures EqualUpToCase(a[i], b[i]) <==> LowerChar(a[i]) == LowerChar(b[i]) {
      }
    }
  }

  /** A header map: names are unique up to case. */
  ghost predicate Unique(h: seq<Header>) {
    forall i, j :: 0 <= i < j < |h| ==> !Same(h[i].name, h[j].name)
  }

  function Lookup(h: seq<Header>, name: string): Option<seq<string>> {
    if h == [] then None
    else if Same(h[0].name, name) then Some(h[0].lines)
    else Lookup(h[1..], name)
  }

  /** Takes out the entry of that name, if there is one. */
  function Remove(h: seq<Header>, name: string): seq<Header> {
    if h == [] then []
    else if Same(h[0].name, name) then h[1..]
    else [h[0]] + Remove(h[1..], name)
  }

  /** Replaces the entry of that name in place, or adds it at the end. */
  function Set(h: seq<Header>, name: string, lines: seq<string>): seq<Header> {
    if h == [] then [Header(name, lines)]
    else if Same(h[0].name, name) then [Header(name, lines)] + h[1..]
    else [h[0]] + Set(h[1..], name, lines)
  }

  /** The declarative filter: the headers whose lower-case names are not listed. */
  function Without(h: seq<Header>, names: set<string>): seq<Header> {
    if h == [] then []
    else if Lower(h[0].name) in names then Without(h[1..], names)
    else [h[0]] + Without(h[1..], names)
  }

  lemma {:induction false} WithoutMembers(h: seq<Header>, names: set<string>)
    ensures forall x :: x in Without(h, names) <==> x in h && Lower(x.name) !in names
  {
    if h != [] {
      WithoutMembers(h[1..], names);
      assert h == [h[0]] + h[1..];
    }
  }

  /** How many of the first `i` headers are not listed. */
  function UnlistedBefore(h: seq<Header>, names: set<string>, i: nat): nat
    requires i <= |h|
  {
    if i == 0 then 0 else UnlistedBefore(h, names, i - 1) + if Lower(h[i - 1].name) in names then 0 else 1
  }

  lemma {:induction false} WithoutSnoc(h: seq<Header>, names: set<string>, x: Header)
    ensures Without(h + [x], names) == Without(h, names) + if Lower(x.name) in names then [] else [x]
  {
    if h == [] {
      assert [x][1..] == [];
    } else {
      assert (h + [x])[1..] == h[1..] + [x];
      WithoutSnoc(h[1..], names, x);
    }
  }

  lemma {:induction false} WithoutUpTo(h: seq<Header>, names: set<string>, i: nat, k: nat)
    requires i <= k <= |h|
    ensures |Without(h[..k], names)| == UnlistedBefore(h, names, k)
    ensures Without(h[..i], names) <= Without(h[..k], names)
    decreases k
  {
    if k > 0 {
      assert h[..k] == h[..k - 1] + [h[k - 1]];
      WithoutSnoc(h[..k - 1], names, h[k - 1]);
      WithoutUpTo(h, names, if i < k then i else k - 1, k - 1);
    }
  }

  /** What is not listed stays, each header once with its lines, in the order it had. */
  lemma {:induction false} WithoutInOrder(h: seq<Header>, names: set<string>, i: nat)
    requires i < |h|
    ensures |Without(h, names)| == UnlistedBefore(h, names, |h|)
    ensures Lower(h[i].name) !in names ==>
              var k := UnlistedBefore(h, names, i);
              k < |Without(h, names)| && Without(h, names)[k] == h[i]
  {
    assert h[..|h|] == h && h[..i + 1] == h[..i] + [h[i]];
    WithoutUpTo(h, names, i + 1, |h|);
    WithoutUpTo(h, names, i, i);
    WithoutSnoc(h[..i], names, h[i]);
  }

  lemma {:induction false} WithoutTwice(h: seq<Header>, a: set<string>, b: set<string>)
    ensures Without(Without(h, a), b) == Without(h, a + b)
  {
    if h != [] {
      WithoutTwice(h[1..], a, b);
      if Lower(h[0].name) !in a {
        var rest := Without(h[1..], a);
        assert ([h[0]] + rest)[1..] == rest;
      }
    }
  }

  lemma {:induction false} WithoutUnlisted(h: seq<Header>, names: set<string>)
    requires forall i :: 0 <= i < |h| ==> Lower(h[i].name) !in names
    ensures Without(h, names) == h
  {
    if h != [] { WithoutUnlisted(h[1..], names); }
  }

  lemma {:induction false} WithoutUnique(h: seq<Header>, names: set<string>)
    requires Unique(h)
    ensures Unique(Without(h, names))
  {
    if h != [] {
      WithoutUnique(h[1..], names);
      WithoutMembers(h[1..], names);
      var rest := Without(h[1..], names);
      forall j | 0 <= j < |rest| ensures !Same(h[0].name, rest[j].name) {
        assert rest[j] in h[1..];
      }
    }
  }

  /** In a header map, taking out one entry is filtering by one name. */
  lemma {:induction false} RemoveIsWithout(h: seq<Header>, name: string)
    requires Unique(h)
    ensures Remove(h, name) == Without(h, {Lower(name)})
  {
    if h != [] {
      if Same(h[0].name, name) {
        WithoutUnlisted(h[1..], {Lower(name)});
      } else {
        RemoveIsWithout(h[1..], name);
      }
    }
  }

  // ---- the request filter

  datatype ConnectionOption = Close | KeepAlive | ConnectionHeader(name: string)

  function Nominated(o: ConnectionOption): string {
    match o
    case Close => "Close"
    case KeepAlive => "Keep-Alive"
    case ConnectionHeader(n) => n
  }

  /** How header lines are read: the options of a Connection header, and the text of a Via header. */
  datatype Codec = Codec(options: seq<string> -> Option<seq<ConnectionOption>>,
                         via: seq<string> -> Option<string>)

  /** The header names that a filter knows. */
  datatype Rules = Rules(connection: string, via: string, hopByHop: seq<string>)

  const REQUEST := Rules("Connection", "Via",
                         ["Connection", "TE", "Transfer-Encoding", "Proxy-Authorization", "Trailer", "Upgrade"])

  const RESPONSE_HOP_BY_HOP := ["Transfer-Encoding", "Proxy-Authenticate", "Trailer", "Upgrade"]

  /** The Connection header is itself hop-by-hop, and Via is another header. */
  predicate Sound(r: Rules) {
    r.hopByHop != [] && r.hopByHop[0] == r.connection && !Same(r.via, r.connection)
  }

  lemma {:induction false} RequestRulesSound()
    ensures Sound(REQUEST)
  {
    assert |Lower("Via")| == 3 && |Lower("Connection")| == 10;
  }

  function Options(codec: Codec, r: Rules, h: seq<Header>): seq<ConnectionOption> {
    match Lookup(h, r.connection)
    case None => []
    case Some(lines) => (match codec.options(lines) case Some(os) => os case None => [])
  }

  function Lowered(names: seq<string>): set<string> {
    if names == [] then {} else Lowered(names[..|names| - 1]) + {Lower(names[|names| - 1])}
  }

  function NominatedNames(os: seq<ConnectionOption>): set<string> {
    if os == [] then {} else NominatedNames(os[..|os| - 1]) + {Lower(Nominated(os[|os| - 1]))}
  }

  /** The lower-case names that the proxy does not pass on. */
  function Dropped(codec: Codec, r: Rules, h: seq<Header>): set<string> {
    NominatedNames(Options(codec, r, h)) + Lowered(r.hopByHop)
  }

  function Filtered(codec: Codec, r: Rules, h: seq<Header>): seq<Header> {
    Without(h, Dropped(codec, r, h))
  }

  /** Removes the named headers one after the other. */
  method RemoveEach(headers: seq<Header>, names: seq<string>) returns (h: seq<Header>)
    requires Unique(headers)
    ensures h == Without(headers, Lowered(names)) && Unique(h)
  {
    h := headers;
    var i := 0;
    WithoutUnlisted(headers, {});
    while i < |names|
      invariant 0 <= i <= |names|
      invariant h == Without(headers, Lowered(names[..i])) && Unique(h)
    {
      RemoveOneMore(headers, h, Lowered(names[..i]), names[i]);
      assert names[..i + 1][..i] == names[..i];
      h := Remove(h, names[i]);
      i := i + 1;
    }
    assert names[..i] == names;
  }

  lemma {:induction false} RemoveOneMore(headers: seq<Header>, h: seq<Header>, names: set<string>, name: string)
    requires Unique(h) && h == Without(headers, names)
    ensures Remove(h, name) == Without(headers, names + {Lower(name)}) && Unique(Remove(h, name))
  {
    RemoveIsWithout(h, name);
    WithoutTwice(headers, names, {Lower(name)});
    WithoutUnique(h, {Lower(name)});
  }

  /** Removes the headers that the Connection options nominate. */
  method RemoveNominated(headers: seq<Header>, os: seq<ConnectionOption>) returns (h: seq<Header>)
    requires Unique(headers)
    ensures h == Without(headers, NominatedNames(os)) && Unique(h)
  {
    h := headers;
    var i := 0;
    WithoutUnlisted(headers, {});
    while i < |os|
      invariant 0 <= i <= |os|
      invariant h == Without(headers, NominatedNames(os[..i])) && Unique(h)
    {
      RemoveOneMore(headers, h, NominatedNames(os[..i]), Nominated(os[i]));
      assert os[..i + 1][..i] == os[..i];
      match os[i] {
        case Close => h := Remove(h, "Close");
        case KeepAlive => h := Remove(h, "Keep-Alive");
        case ConnectionHeader(name) => h := Remove(h, name);
      }
      i := i + 1;
    }
    assert os[..i] == os;
  }

  /** The removal loop over the Connection options, then the fixed list, is the declarative filter. */
  method Filter(codec: Codec, r: Rules, headers: seq<Header>) returns (h: seq<Header>)
    requires Unique(headers)
    ensures h == Filtered(codec, r, headers) && Unique(h)
  {
    var os := Options(codec, r, headers);
    h := RemoveNominated(headers, os);
    h := RemoveEach(h, r.hopByHop);
    WithoutTwice(headers, NominatedNames(os), Lowered(r.hopByHop));
  }

  method FilterFrontendRequestHeaders(codec: Codec, headers: seq<Header>) returns (h: seq<Header>)
    requires Unique(headers)
    ensures h == Filtered(codec, REQUEST, headers) && Unique(h)
  {
    h := Filter(codec, REQUEST, headers);
  }

  method FilterBackendResponseHeaders(headers: seq<Header>) returns (h: seq<Header>)
    requires Unique(headers)
    ensures h == Without(headers, Lowered(RESPONSE_HOP_BY_HOP)) && Unique(h)
  {
    h := RemoveEach(headers, RESPONSE_HOP_BY_HOP);
  }

  lemma {:induction false} NominatedIff(os: seq<ConnectionOption>, n: string)
    ensures n in NominatedNames(os) <==> exists i :: 0 <= i < |os| && n == Lower(Nominated(os[i]))
  {
    if os != [] {
      var k := |os| - 1;
      NominatedIff(os[..k], n);
      if n in NominatedNames(os[..k]) {
        var i :| 0 <= i < k && n == Lower(Nominated(os[..k][i]));
        assert n == Lower(Nominated(os[i]));
      }
      if exists i :: 0 <= i < k && n == Lower(Nominated(os[i])) {
        var i :| 0 <= i < k && n == Lower(Nominated(os[i]));
        assert n == Lower(Nominated(os[..k][i]));
      }
    }
  }

  lemma {:induction false} LoweredIff(names: seq<string>, n: string)
    ensures n in Lowered(names) <==> exists i :: 0 <= i < |names| && n == Lower(names[i])
  {
    if names != [] {
      var k := |names| - 1;
      LoweredIff(names[..k], n);
      if n in Lowered(names[..k]) {
        var i :| 0 <= i < k && n == Lower(names[..k][i]);
        assert n == Lower(names[i]);
      }
      if exists i :: 0 <= i < k && n == Lower(names[i]) {
        var i :| 0 <= i < k && n == Lower(names[i]);
        assert n == Lower(names[..k][i]);
      }
    }
  }

  /** Some entry of the list names the header, up to case. */
  ghost predicate Listed(names: seq<string>, name: string) {
    exists i :: 0 <= i < |names| && Same(name, names[i])
  }

  lemma {:induction false} WithoutListed(h: seq<Header>, names: seq<string>, x: Header)
    ensures x in Without(h, Lowered(names)) <==> x in h && !Listed(names, x.name)
  {
    WithoutMembers(h, Lowered(names));
    LoweredIff(names, Lower(x.name));
  }

  /** What is passed on: exactly the headers that neither an option nominates nor the fixed list
      names, up to case. */
  lemma {:induction false} PassedOn(codec: Codec, r: Rules, h: seq<Header>, x: Header)
    ensures x in Filtered(codec, r, h) <==>
            && x in h
            && (forall i :: 0 <= i < |Options(codec, r, h)| ==> !Same(x.name, Nominated(Options(codec, r, h)[i])))
            && !Listed(r.hopByHop, x.name)
  {
    WithoutMembers(h, Dropped(codec, r, h));
    NominatedIff(Options(codec, r, h), Lower(x.name));
    LoweredIff(r.hopByHop, Lower(x.name));
  }

  lemma {:induction false} SixNames(a: string, b: string, c: string, d: string, e: string, f: string, name: string)
    ensures Listed([a, b, c, d, e, f], name) <==>
            Same(name, a) || Same(name, b) || Same(name, c) || Same(name, d) || Same(name, e) || Same(name, f)
  {
    var l := [a, b, c, d, e, f];
    assert l[0] == a && l[1] == b && l[2] == c && l[3] == d && l[4] == e && l[5] == f;
  }

  lemma {:induction false} FourNames(a: string, b: string, c: string, d: string, name: string)
    ensures Listed([a, b, c, d], name) <==> Same(name, a) || Same(name, b) || Same(name, c) || Same(name, d)
  {
    var l := [a, b, c, d];
    assert l[0] == a && l[1] == b && l[2] == c && l[3] == d;
  }

  /** The option takes out the header of that name. */
  predicate TakesOut(o: ConnectionOption, name: string) {
    match o
    case Close => Same(name, "Close")
    case KeepAlive => Same(name, "Keep-Alive")
    case ConnectionHeader(n) => Same(name, n)
  }

  lemma {:induction false} NoneNominates(os: seq<ConnectionOption>, name: string)
    ensures (forall i :: 0 <= i < |os| ==> !Same(name, Nominated(os[i]))) <==>
            (forall o :: o in os ==> !TakesOut(o, name))
  {
    forall i | 0 <= i < |os| ensures Same(name, Nominated(os[i])) <==> TakesOut(os[i], name) {
    }
    assert forall i :: 0 <= i < |os| ==> os[i] in os;
  }

  lemma {:induction false} OptionsSpelledOut(os: seq<ConnectionOption>, name: string, close: string, keepAlive: string)
    requires close == "Close" && keepAlive == "Keep-Alive"
    ensures (forall o :: o in os ==> !TakesOut(o, name)) <==>
            forall o :: o in os ==>
              && (o.Close? ==> !Same(name, close))
              && (o.KeepAlive? ==> !Same(name, keepAlive))
              && (o.ConnectionHeader? ==> !Same(name, o.name))
  {
  }

  /** The options of a Connection header that is there and readable. */
  function OptionsRead(codec: Codec, lines: Option<seq<string>>): Option<seq<ConnectionOption>> {
    if lines.Some? then codec.options(lines.value) else None
  }

  lemma {:induction false} PassedOnByOptions(codec: Codec, r: Rules, h: seq<Header>, x: Header)
    ensures var read := OptionsRead(codec, Lookup(h, r.connection));
      x in Filtered(codec, r, h) <==>
        && x in h
        && (read.Some? ==> forall o :: o in read.value ==> !TakesOut(o, x.name))
        && !Listed(r.hopByHop, x.name)
  {
    PassedOn(codec, r, h, x);
    NoneNominates(Options(codec, r, h), x.name);
  }

  lemma {:induction false} PassedOnByNames(codec: Codec, r: Rules, h: seq<Header>, x: Header,
                                           close: string, keepAlive: string)
    requires close == "Close" && keepAlive == "Keep-Alive"
    ensures var read := OptionsRead(codec, Lookup(h, r.connection));
      x in Filtered(codec, r, h) <==>
        && x in h
        && (read.Some? ==> forall o :: o in read.value ==>
              && (o.Close? ==> !Same(x.name, close))
              && (o.KeepAlive? ==> !Same(x.name, keepAlive))
              && (o.ConnectionHeader? ==> !Same(x.name, o.name)))
        && !Listed(r.hopByHop, x.name)
  {
    PassedOnByOptions(codec, r, h, x);
    var read := OptionsRead(codec, Lookup(h, r.connection));
    if read.Some? { OptionsSpelledOut(read.value, x.name, close, keepAlive); }
  }

  /** The request filter by its actual names and by the options as they were read: without a readable
      Connection header no option counts. */
  lemma {:induction false} RequestPassedOn(codec: Codec, h: seq<Header>, x: Header)
    ensures var read := OptionsRead(codec, Lookup(h, "Connection"));
      x in Filtered(codec, REQUEST, h) <==>
        && x in h
        && (read.Some? ==> forall o :: o in read.value ==>
              && (o.Close? ==> !Same(x.name, "Close"))
              && (o.KeepAlive? ==> !Same(x.name, "Keep-Alive"))
              && (o.ConnectionHeader? ==> !Same(x.name, o.name)))
        && !(Same(x.name, "Connection") || Same(x.name, "TE") || Same(x.name, "Transfer-Encoding")
             || Same(x.name, "Proxy-Authorization") || Same(x.name, "Trailer") || Same(x.name, "Upgrade"))
  {
    PassedOnByNames(codec, REQUEST, h, x, "Close", "Keep-Alive");
    SixNames("Connection", "TE", "Transfer-Encoding", "Proxy-Authorization", "Trailer", "Upgrade", x.name);
  }

  /** The response filter passes on everything but its four fixed names. */
  lemma {:induction false} ResponsePassedOn(h: seq<Header>, x: Header)
    ensures x in Without(h, Lowered(RESPONSE_HOP_BY_HOP)) <==>
            x in h && !(Same(x.name, "Transfer-Encoding") || Same(x.name, "Proxy-Authenticate")
                        || Same(x.name, "Trailer") || Same(x.name, "Upgrade"))
  {
    WithoutListed(h, RESPONSE_HOP_BY_HOP, x);
    FourNames("Transfer-Encoding", "Proxy-Authenticate", "Trailer", "Upgrade", x.name);
  }

  lemma {:induction false} LookupWithout(h: seq<Header>, names: set<string>, name: string)
    ensures Lookup(Without(h, names), name) == if Lower(name) in names then None else Lookup(h, name)
  {
    if h != [] {
      LookupWithout(h[1..], names, name);
      if Lower(h[0].name) !in names {
        var rest := Without(h[1..], names);
        assert ([h[0]] + rest)[1..] == rest;
      }
    }
  }

  lemma {:induction false} ConnectionGone(codec: Codec, r: Rules, h: seq<Header>)
    requires Sound(r)
    ensures Lookup(Filtered(codec, r, h), r.connection) == None
  {
    LoweredIff(r.hopByHop, Lower(r.connection));
    LookupWithout(h, Dropped(codec, r, h), r.connection);
  }

  /** Without a Connection header only the fixed list is dropped. */
  lemma {:induction false} NothingNominated(codec: Codec, r: Rules, g: seq<Header>)
    requires Lookup(g, r.connection) == None
    ensures Filtered(codec, r, g) == Without(g, Lowered(r.hopByHop))
  {
    assert NominatedNames([]) + Lowered(r.hopByHop) == Lowered(r.hopByHop);
  }

  /** Filtering a request twice is filtering it once. */
  lemma {:induction false} FilterIdempotent(codec: Codec, h: seq<Header>)
    ensures Filtered(codec, REQUEST, Filtered(codec, REQUEST, h)) == Filtered(codec, REQUEST, h)
  {
    RequestRulesSound();
    SoundFilterIdempotent(codec, REQUEST, h);
  }

  lemma {:induction false} SoundFilterIdempotent(codec: Codec, r: Rules, h: seq<Header>)
    requires Sound(r)
    ensures Filtered(codec, r, Filtered(codec, r, h)) == Filtered(codec, r, h)
  {
    ConnectionGone(codec, r, h);
    NothingNominated(codec, r, Filtered(codec, r, h));
    WithoutTwice(h, Dropped(codec, r, h), Lowered(r.hopByHop));
    assert Dropped(codec, r, h) + Lowered(r.hopByHop) == Dropped(codec, r, h);
  }

  // ---- where the response filter meets section 6.1

  /** The filter that section 6.1 asks for in responses: the four names, Connection itself, and whatever
      Connection nominates. */
  const RESPONSE := Rules("Connection", "Via", ["Connection"] + RESPONSE_HOP_BY_HOP)

  lemma {:induction false} LoweredCons(name: string, names: seq<string>)
    ensures Lowered([name] + names) == {Lower(name)} + Lowered(names)
  {
    var all, n := [name] + names, |names| - 1;
    if names != [] {
      LoweredCons(name, names[..n]);
      assert all[..|all| - 1] == [name] + names[..n];
    } else {
      assert all[..0] == [];
    }
  }

  lemma {:induction false} OtherLength(names: seq<string>, name: string)
    requires forall i :: 0 <= i < |names| ==> |names[i]| != |name|
    ensures Lower(name) !in Lowered(names)
  {
    LoweredIff(names, Lower(name));
    forall i | 0 <= i < |names| ensures Lower(name) != Lower(names[i]) {
      assert |Lower(names[i])| == |names[i]|;
    }
  }

  /** The names are all that the rules list besides Connection. */
  ghost predicate ButConnection(r: Rules, names: seq<string>) {
    Sound(r) && r.hopByHop == [r.connection] + names && Lower(r.connection) !in Lowered(names)
  }

  lemma {:induction false} LengthsTellApart(r: Rules, names: seq<string>)
    requires r.hopByHop == [r.connection] + names && |r.via| != |r.connection|
    requires forall i :: 0 <= i < |names| ==> |names[i]| != |r.connection|
    ensures ButConnection(r, names)
  {
    OtherLength(names, r.connection);
    assert |Lower(r.via)| == |r.via| && |Lower(r.connection)| == |r.connection|;
  }

  lemma {:induction false} ResponseRules()
    ensures ButConnection(RESPONSE, RESPONSE_HOP_BY_HOP)
  {
    LengthsTellApart(RESPONSE, RESPONSE_HOP_BY_HOP);
  }

  lemma {:induction false} AbsentIsUnlisted(h: seq<Header>, name: string)
    requires Lookup(h, name) == None
    ensures Without(h, {Lower(name)}) == h
  {
    if h != [] { AbsentIsUnlisted(h[1..], name); }
  }

  lemma {:induction false} ConformsWithoutConnection(codec: Codec, r: Rules, names: seq<string>, h: seq<Header>)
    requires ButConnection(r, names)
    ensures Lookup(Without(h, Lowered(names)), r.connection) == Lookup(h, r.connection)
    ensures Without(h, Lowered(names)) == Filtered(codec, r, h) <==> Lookup(h, r.connection) == None
  {
    LookupWithout(h, Lowered(names), r.connection);
    ConnectionGone(codec, r, h);
    if Lookup(h, r.connection) == None {
      NothingNominated(codec, r, h);
      WithoutTwice(h, Lowered(names), {Lower(r.connection)});
      AbsentIsUnlisted(Without(h, Lowered(names)), r.connection);
      LoweredCons(r.connection, names);
      assert Lowered(names) + {Lower(r.connection)} == Lowered(r.hopByHop);
    }
  }

  /** The response filter leaves the Connection header as it is, and so does what section 6.1 asks for
      exactly when the response has none. */
  lemma {:induction false} ResponseBoundary(codec: Codec, h: seq<Header>)
    ensures Lookup(Without(h, Lowered(RESPONSE_HOP_BY_HOP)), "Connection") == Lookup(h, "Connection")
    ensures Without(h, Lowered(RESPONSE_HOP_BY_HOP)) == Filtered(codec, RESPONSE, h) <==>
            Lookup(h, "Connection") == None
  {
    ResponseRules();
    ConformsWithoutConnection(codec, RESPONSE, RESPONSE_HOP_BY_HOP, h);
  }

  lemma {:induction false} BothGoThrough(codec: Codec, r: Rules, names: seq<string>, c: Header, x: Header)
    requires ButConnection(r, names) && c.name == r.connection
    requires codec.options(c.lines) == Some([ConnectionHeader(x.name)]) && Lower(x.name) !in Lowered(names)
    ensures Without([c, x], Lowered(names)) == [c, x] && Filtered(codec, r, [c, x]) == []
  {
    var h, os := [c, x], [ConnectionHeader(x.name)];
    WithoutUnlisted(h, Lowered(names));
    assert Options(codec, r, h) == os;
    assert os[..0] == [] && NominatedNames(os) == {Lower(x.name)};
    LoweredCons(r.connection, names);
    NothingLeft(h, Dropped(codec, r, h));
  }

  /** A response whose Connection header nominates another of its headers: the filter passes both on,
      where neither should pass. */
  lemma {:induction false} NominatedGoesThrough(codec: Codec, c: Header, x: Header)
    requires c.name == "Connection" && codec.options(c.lines) == Some([ConnectionHeader(x.name)])
    requires Lower(x.name) !in Lowered(RESPONSE_HOP_BY_HOP)
    ensures Without([c, x], Lowered(RESPONSE_HOP_BY_HOP)) == [c, x] && Filtered(codec, RESPONSE, [c, x]) == []
  {
    ResponseRules();
    BothGoThrough(codec, RESPONSE, RESPONSE_HOP_BY_HOP, c, x);
  }

  lemma {:induction false} NothingLeft(h: seq<Header>, names: set<string>)
    requires forall i :: 0 <= i < |h| ==> Lower(h[i].name) in names
    ensures Without(h, names) == []
  {
    if h != [] { NothingLeft(h[1..], names); }
  }

  // ---- the Via header

  datatype HttpVersion = Http09 | Http10 | Http11 | H2 | H2c

  function VersionText(v: HttpVersion): string {
    match v
    case Http09 => "0.9"
    case Http10 => "1.0"
    case Http11 => "1.1"
    case H2 => "2"
    case H2c => "2"
  }

  function OwnEntry(v: HttpVersion): string { VersionText(v) + " weldr" }

  function AppendVia(via: string, other: string): string { via + ", " + other }

  function CreateViaHeader(via: Option<string>, v: HttpVersion): string {
    match via
    case Some(text) => AppendVia(text, OwnEntry(v))
    case None => OwnEntry(v)
  }

  function ViaOf(codec: Codec, r: Rules, h: seq<Header>): Option<string> {
    match Lookup(h, r.via)
    case Some(lines) => codec.via(lines)
    case None => None
  }

  /** The headers of the request that goes to the backend; Via is read before the filter runs. */
  function MapRequest(codec: Codec, r: Rules, h: seq<Header>, v: HttpVersion): seq<Header> {
    Set(Filtered(codec, r, h), r.via, [CreateViaHeader(ViaOf(codec, r, h), v)])
  }

  /** The text read from the incoming Via header, if any, and then the received version and the name. */
  function OutgoingVia(codec: Codec, h: seq<Header>, v: HttpVersion): string {
    var earlier := match Lookup(h, "Via") case Some(lines) => codec.via(lines) case None => None;
    (if earlier.Some? then earlier.value + ", " else "") +
    match v
      case Http09 => "0.9 weldr"
      case Http10 => "1.0 weldr"
      case Http11 => "1.1 weldr"
      case H2 => "2 weldr"
      case H2c => "2 weldr"
  }

  lemma {:induction false} OutgoingText(codec: Codec, h: seq<Header>, v: HttpVersion)
    ensures CreateViaHeader(ViaOf(codec, REQUEST, h), v) == OutgoingVia(codec, h, v)
  {
  }

  lemma {:induction false} HopWrites(codec: Codec, r: Rules, h: seq<Header>, v: HttpVersion)
    ensures Lookup(MapRequest(codec, r, h, v), r.via) == Some([CreateViaHeader(ViaOf(codec, r, h), v)])
  {
    LookupSet(Filtered(codec, r, h), r.via, [CreateViaHeader(ViaOf(codec, r, h), v)], r.via);
  }

  lemma {:induction false} SetUnique(h: seq<Header>, name: string, lines: seq<string>)
    requires Unique(h)
    ensures Unique(Set(h, name, lines))
    ensures forall x :: x in Set(h, name, lines) ==> x in h || x == Header(name, lines)
  {
    if h != [] {
      SetUnique(h[1..], name, lines);
      assert h == [h[0]] + h[1..];
      if !Same(h[0].name, name) {
        var rest := Set(h[1..], name, lines);
        forall j | 0 <= j < |rest| ensures !Same(h[0].name, rest[j].name) {
          assert rest[j] in rest;
        }
      }
    }
  }

  method MapRequestHeaders(codec: Codec, headers: seq<Header>, v: HttpVersion) returns (h: seq<Header>)
    requires Unique(headers)
    ensures h == MapRequest(codec, REQUEST, headers, v)
    ensures Lookup(h, "Via") == Some([OutgoingVia(codec, headers, v)])
    ensures Unique(h)
  {
    HopWrites(codec, REQUEST, headers, v);
    OutgoingText(codec, headers, v);
    var via := CreateViaHeader(ViaOf(codec, REQUEST, headers), v);
    h := FilterFrontendRequestHeaders(codec, headers);
    SetUnique(h, REQUEST.via, [via]);
    h := Set(h, REQUEST.via, [via]);
  }

  lemma {:induction false} LookupSet(h: seq<Header>, name: string, lines: seq<string>, other: string)
    ensures Lookup(Set(h, name, lines), other) == if Same(name, other) then Some(lines) else Lookup(h, other)
  {
    if h != [] {
      LookupSet(h[1..], name, lines, other);
      var rest := Set(h[1..], name, lines);
      assert ([h[0]] + rest)[1..] == rest && ([Header(name, lines)] + h[1..])[1..] == h[1..];
    }
  }

  lemma {:induction false} SetElsewhere(h: seq<Header>, name: string, lines: seq<string>, names: set<string>)
    requires Lower(name) in names
    ensures Without(Set(h, name, lines), names) == Without(h, names)
  {
    if h == [] {
      assert [Header(name, lines)][1..] == [];
    } else {
      SetElsewhere(h[1..], name, lines, names);
      var rest := Set(h[1..], name, lines);
      assert ([h[0]] + rest)[1..] == rest && ([Header(name, lines)] + h[1..])[1..] == h[1..];
    }
  }

  /** The request after passing one proxy for each version in turn. */
  function Hops(codec: Codec, r: Rules, h: seq<Header>, vs: seq<HttpVersion>): seq<Header> {
    if vs == [] then h else MapRequest(codec, r, Hops(codec, r, h, vs[..|vs| - 1]), vs[|vs| - 1])
  }

  function Join(entries: seq<string>): string
    requires entries != []
  {
    if |entries| == 1 then entries[0]
    else Join(entries[..|entries| - 1]) + ", " + entries[|entries| - 1]
  }

  /** One entry per proxy, in order. */
  function Entries(vs: seq<HttpVersion>): (r: seq<string>)
    ensures |r| == |vs| && forall i :: 0 <= i < |vs| ==> r[i] == OwnEntry(vs[i])
  {
    if vs == [] then [] else Entries(vs[..|vs| - 1]) + [OwnEntry(vs[|vs| - 1])]
  }

  function ViaList(original: Option<string>, vs: seq<HttpVersion>): seq<string> {
    (if original.Some? then [original.value] else []) + Entries(vs)
  }

  /** The codec reads the line written after `via` as it was written. */
  predicate ReadsBack(codec: Codec, via: Option<string>, v: HttpVersion) {
    codec.via([CreateViaHeader(via, v)]) == Some(CreateViaHeader(via, v))
  }

  /** The codec reads back every Via line that a proxy may write, first or after a text it has read. */
  ghost predicate ReadsOwnVia(codec: Codec) {
    && (forall v :: ReadsBack(codec, None, v))
    && (forall lines, v :: ReadsBack(codec, codec.via(lines), v))
  }

  function TrimStart(s: string): (r: string)
    ensures r == "" || r[0] != ' '
    ensures s != "" && s[0] != ' ' ==> r == s
  {
    if s != "" && s[0] == ' ' then TrimStart(s[1..]) else s
  }

  function TrimEnd(s: string): (r: string)
    ensures r <= s && (r == "" || r[|r| - 1] != ' ')
    ensures s != "" && s[|s| - 1] != ' ' ==> r == s
  {
    if s != "" && s[|s| - 1] == ' ' then TrimEnd(s[..|s| - 1]) else s
  }

  lemma {:induction false} WrittenNeedsNoTrim(text: string, v: HttpVersion)
    requires text == "" || text[0] != ' '
    ensures var line := AppendVia(text, OwnEntry(v)); line != "" && Strip(line) == line
    ensures OwnEntry(v) != "" && Strip(OwnEntry(v)) == OwnEntry(v)
  {
    var own := OwnEntry(v);
    assert own[0] != ' ' && own[|own| - 1] == 'r';
    var line := AppendVia(text, own);
    assert line[|line| - 1] == own[|own| - 1];
    assert line[0] != ' ';
  }

  function Strip(s: string): string { TrimEnd(TrimStart(s)) }

  /** The reader takes a single non-empty line, strips the spaces around it, and reads nothing else. */
  ghost predicate Strips(codec: Codec) {
    forall lines :: codec.via(lines) == if |lines| == 1 && lines[0] != "" then Some(Strip(lines[0])) else None
  }

  lemma {:induction false} StrippingReadsOwnVia(codec: Codec)
    requires Strips(codec)
    ensures ReadsOwnVia(codec)
  {
    forall v ensures ReadsBack(codec, None, v) {
      WrittenNeedsNoTrim("", v);
    }
    forall lines, v ensures ReadsBack(codec, codec.via(lines), v) {
      var via := codec.via(lines);
      WrittenNeedsNoTrim(if via.Some? then via.value else "", v);
    }
  }

  lemma {:induction false} ViaAfterHop(codec: Codec, r: Rules, g: seq<Header>, v: HttpVersion)
    requires ReadsOwnVia(codec)
    ensures ViaOf(codec, r, MapRequest(codec, r, g, v)) == Some(CreateViaHeader(ViaOf(codec, r, g), v))
  {
    var text := CreateViaHeader(ViaOf(codec, r, g), v);
    LookupSet(Filtered(codec, r, g), r.via, [text], r.via);
    assert ReadsBack(codec, ViaOf(codec, r, g), v);
  }

  lemma {:induction false} ViaListSnoc(original: Option<string>, vs: seq<HttpVersion>)
    requires vs != []
    ensures var front := ViaList(original, vs[..|vs| - 1]);
      Join(ViaList(original, vs)) ==
      CreateViaHeader(if front == [] then None else Some(Join(front)), vs[|vs| - 1])
  {
    var list := ViaList(original, vs);
    assert list[..|list| - 1] == ViaList(original, vs[..|vs| - 1]);
    assert list[|list| - 1] == OwnEntry(vs[|vs| - 1]);
  }

  /** After any number of hops the Via header reads as the text that the codec read originally followed
      by one entry per hop in order, whatever the Connection header nominates, Via included. */
  lemma {:induction false} ViaRecordsHops(codec: Codec, r: Rules, h: seq<Header>, vs: seq<HttpVersion>)
    requires ReadsOwnVia(codec)
    ensures var list := ViaList(ViaOf(codec, r, h), vs);
      ViaOf(codec, r, Hops(codec, r, h, vs)) == if list == [] then None else Some(Join(list))
  {
    if vs != [] {
      var front, v := vs[..|vs| - 1], vs[|vs| - 1];
      ViaRecordsHops(codec, r, h, front);
      ViaAfterHop(codec, r, Hops(codec, r, h, front), v);
      ViaListSnoc(ViaOf(codec, r, h), vs);
    }
  }

  // ---- which requests keep their earlier Via entries

  /** The entries that a request brought along, line by line. */
  function Originals(lines: seq<string>): seq<string> {
    if lines == [] then []
    else
      var n := |lines| - 1;
      Originals(lines[..n]) + if lines[n] == "" then [] else [Strip(lines[n])]
  }

  /** Every line is empty. */
  predicate Blank(lines: seq<string>) {
    forall i :: 0 <= i < |lines| ==> lines[i] == ""
  }

  lemma {:induction false} OriginalsBlank(lines: seq<string>)
    ensures Originals(lines) == [] <==> Blank(lines)
  {
    if lines != [] { OriginalsBlank(lines[..|lines| - 1]); }
  }

  /** The reader gets all the entries exactly when they come in one line, or there are none. */
  lemma {:induction false} ReaderGetsAll(codec: Codec, lines: seq<string>)
    requires Strips(codec)
    ensures var read := codec.via(lines);
      if |lines| <= 1 || Blank(lines) then Originals(lines) == if read.Some? then [read.value] else []
      else read == None && Originals(lines) != []
  {
    OriginalsBlank(lines);
    if |lines| == 1 { assert Originals(lines[..0]) == []; }
  }

  lemma {:induction false} JoinLonger(a: seq<string>, b: seq<string>)
    requires a != [] && b != []
    ensures |Join(a + b)| > |Join(b)|
  {
    var n := |b| - 1;
    assert (a + b)[..|a| + n] == a + b[..n] && (a + b)[|a| + n] == b[n];
    if n > 0 { JoinLonger(a, b[..n]); } else { assert a + b[..n] == a; }
  }

  /** The lines of the Via header, none if there is no such header. */
  function ViaLines(r: Rules, h: seq<Header>): seq<string> {
    match Lookup(h, r.via)
    case Some(lines) => lines
    case None => []
  }

  /** The line that the last of at least one hop writes. */
  lemma {:induction false} WrittenLine(codec: Codec, r: Rules, h: seq<Header>, vs: seq<HttpVersion>)
    requires ReadsOwnVia(codec) && vs != []
    ensures var list := ViaList(ViaOf(codec, r, h), vs);
      list != [] && ViaLines(r, Hops(codec, r, h, vs)) == [Join(list)]
  {
    var front, v := vs[..|vs| - 1], vs[|vs| - 1];
    var g := Hops(codec, r, h, front);
    ViaRecordsHops(codec, r, h, front);
    ViaListSnoc(ViaOf(codec, r, h), vs);
    LookupSet(Filtered(codec, r, g), r.via, [CreateViaHeader(ViaOf(codec, r, g), v)], r.via);
  }

  /** Which requests keep their earlier entries: with a reader that takes one line only, the Via header
      after one or more hops lists the original entries followed by one entry per hop if and only if the
      request brought at most one Via line or only empty ones; otherwise it lists the hops alone. */
  lemma {:induction false} ViaBoundary(codec: Codec, r: Rules, h: seq<Header>, vs: seq<HttpVersion>)
    requires Strips(codec) && vs != []
    ensures var lines, after := ViaLines(r, h), ViaLines(r, Hops(codec, r, h, vs));
      && (after == [Join(Originals(lines) + Entries(vs))] <==> |lines| <= 1 || Blank(lines))
      && (|lines| > 1 && !Blank(lines) ==> after == [Join(Entries(vs))])
  {
    StrippingReadsOwnVia(codec);
    WrittenLine(codec, r, h, vs);
    var lines := ViaLines(r, h);
    ReaderGetsAll(codec, lines);
    if |lines| > 1 && !Blank(lines) {
      assert ViaList(None, vs) == Entries(vs);
      JoinLonger(Originals(lines), Entries(vs));
    } else if lines == [] {
      assert ViaOf(codec, r, h) == None;
    }
  }

  /** A request with two Via lines leaves with one entry. */
  lemma {:induction false} TwoLinesLost(codec: Codec, a: string, b: string, v: HttpVersion)
    requires Strips(codec) && a != ""
    ensures ViaLines(REQUEST, MapRequest(codec, REQUEST, [Header("Via", [a, b])], v)) == [OwnEntry(v)]
    ensures Originals([a, b]) != []
  {
    var h := [Header("Via", [a, b])];
    assert Lookup(h, "Via") == Some([a, b]);
    OriginalsBlank([a, b]);
    assert [a, b][0] == a;
    assert [v][..0] == [] && Hops(codec, REQUEST, h, [v]) == MapRequest(codec, REQUEST, h, v);
    ViaBoundary(codec, REQUEST, h, [v]);
    assert Entries([v]) == [OwnEntry(v)];
  }

  lemma {:induction false} RestAfterHop(h: seq<Header>, dropped: set<string>, g: seq<Header>, hop: set<string>,
                                        name: string, lines: seq<string>)
    requires hop <= dropped && Without(g, {Lower(name)}) == Without(h, dropped + {Lower(name)})
    ensures Without(Set(Without(g, hop), name, lines), {Lower(name)}) == Without(h, dropped + {Lower(name)})
  {
    var own := {Lower(name)};
    SetElsewhere(Without(g, hop), name, lines, own);
    WithoutTwice(g, hop, own);
    WithoutTwice(g, own, hop);
    assert hop + own == own + hop;
    WithoutTwice(h, dropped + own, hop);
    assert dropped + own + hop == dropped + own;
  }

  /** The Connection header stays away, hop after hop. */
  lemma {:induction false} NoConnectionAfter(codec: Codec, r: Rules, g: seq<Header>, v: HttpVersion)
    requires Sound(r)
    ensures Lookup(MapRequest(codec, r, g, v), r.connection) == None
  {
    LookupSet(Filtered(codec, r, g), r.via, [CreateViaHeader(ViaOf(codec, r, g), v)], r.connection);
    ConnectionGone(codec, r, g);
  }

  lemma {:induction false} FirstHop(codec: Codec, r: Rules, h: seq<Header>, v: HttpVersion)
    ensures Without(MapRequest(codec, r, h, v), {Lower(r.via)}) == Without(h, Dropped(codec, r, h) + {Lower(r.via)})
  {
    SetElsewhere(Filtered(codec, r, h), r.via, [CreateViaHeader(ViaOf(codec, r, h), v)], {Lower(r.via)});
    WithoutTwice(h, Dropped(codec, r, h), {Lower(r.via)});
  }

  lemma {:induction false} SoundHopsKeepTheRest(codec: Codec, r: Rules, h: seq<Header>, vs: seq<HttpVersion>)
    requires Sound(r) && vs != []
    ensures Lookup(Hops(codec, r, h, vs), r.connection) == None
    ensures Without(Hops(codec, r, h, vs), {Lower(r.via)}) == Without(h, Dropped(codec, r, h) + {Lower(r.via)})
  {
    var front, v := vs[..|vs| - 1], vs[|vs| - 1];
    var g := Hops(codec, r, h, front);
    NoConnectionAfter(codec, r, g, v);
    if front == [] {
      FirstHop(codec, r, h, v);
    } else {
      SoundHopsKeepTheRest(codec, r, h, front);
      NothingNominated(codec, r, g);
      RestAfterHop(h, Dropped(codec, r, h), g, Lowered(r.hopByHop), r.via,
                   [CreateViaHeader(ViaOf(codec, r, g), v)]);
    }
  }

  /** Apart from Via, any number of further hops leave a request's headers as the first hop left them. */
  lemma {:induction false} LaterHopsKeepTheRest(codec: Codec, h: seq<Header>, vs: seq<HttpVersion>)
    requires vs != []
    ensures Lookup(Hops(codec, REQUEST, h, vs), "Connection") == None
    ensures Without(Hops(codec, REQUEST, h, vs), {Lower("Via")}) ==
            Without(h, Dropped(codec, REQUEST, h) + {Lower("Via")})
  {
    RequestRulesSound();
    SoundHopsKeepTheRest(codec, REQUEST, h, vs);
  }
}
