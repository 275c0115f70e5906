/**
 `SockAddress::filter`: two regular-expression searches over an address, their backtracking meaning, and the one-pass
 scanner they amount to.
 */
module AddressScanner {
  import opened Sequences

  /** The character classes as written: in `_,-,:` the hyphen only spans from ',' to ','. */
  datatype Class = PathChars | IpChars | PortChars | Digits

  predicate Digit(c: char) {
    '0' <= c <= '9'
  }

  predicate HostChar(c: char) {
    'a' <= c <= 'z' || 'A' <= c <= 'Z' || Digit(c) || c == ',' || c == '/' || c == '.' || c == '*'
  }

  predicate In(c: char, cls: Class) {
    match cls
    case PathChars => HostChar(c) || c == '_' || c == ':'
    case IpChars => HostChar(c)
    case PortChars => Digit(c) || c == '*' || c == ','
    case Digits => Digit(c)
  }

  /** The characters from `lo` to `hi`. */
  function Range(lo: char, hi: char): (r: string)
    requires lo <= hi < 128 as char
    ensures forall c :: c in r <==> lo <= c <= hi
    decreases hi as int
  {
    if lo == hi then [lo] else Range(lo, (hi as int - 1) as char) + [hi]
  }

  const DIGITS: string := Range('0', '9')
  const HOST_CHARS: string := Range('a', 'z') + Range('A', 'Z') + DIGITS + ",/.*"
  const PATH_CHARS: string := HOST_CHARS + "_:"
  const PORT_CHARS: string := DIGITS + "*,"

  /** Which characters the classes hold, spelled out. */
  lemma ClassMembers(c: char)
    ensures In(c, IpChars) <==> c in HOST_CHARS
    ensures In(c, PathChars) <==> c in PATH_CHARS
    ensures In(c, PortChars) <==> c in PORT_CHARS
    ensures In(c, Digits) <==> c in DIGITS
  {
    assert c in ",/.*" <==> c == ',' || c == '/' || c == '.' || c == '*';
    assert c in "_:" <==> c == '_' || c == ':';
    assert c in "*," <==> c == '*' || c == ',';
  }

  datatype Regex =
    | Word(text: string)
    | Plus(cls: Class)
    | Both(first: Regex, second: Regex)
    | Either(left: Regex, right: Regex)
    | Group(inner: Regex)

  /** A way to match: where it ends, and the spans of the groups closed so far, in order. */
  datatype Hit = Hit(end: nat, groups: seq<(nat, nat)>)

  /**
   Every way to match at `i`, in the order a backtracking matcher tries them (ECMA-262, 3rd edition, section 15.10.2):
   alternatives left to right, and a greedy repetition longest first.
   */
  function Matches(re: Regex, s: string, i: nat, groups: seq<(nat, nat)>): seq<Hit>
    decreases re, if i <= |s| then |s| - i else 0, 0
  {
    match re
    case Word(w) =>
      if i + |w| <= |s| && s[i..i + |w|] == w then [Hit(i + |w|, groups)] else []
    case Plus(cls) =>
      if i < |s| && In(s[i], cls) then Matches(re, s, i + 1, groups) + [Hit(i + 1, groups)] else []
    case Both(a, b) => Continue(Matches(a, s, i, groups), b, s)
    case Either(a, b) => Matches(a, s, i, groups) + Matches(b, s, i, groups)
    case Group(a) => Close(Matches(a, s, i, groups), i)
  }

  /** Every way to go on with `re`, trying the earlier matches first. */
  function Continue(hits: seq<Hit>, re: Regex, s: string): seq<Hit>
    decreases re, |s| + 1, |hits|
  {
    if hits == [] then [] else Matches(re, s, hits[0].end, hits[0].groups) + Continue(hits[1..], re, s)
  }

  function Close(hits: seq<Hit>, i: nat): seq<Hit> {
    if hits == [] then [] else [Hit(hits[0].end, hits[0].groups + [(i, hits[0].end)])] + Close(hits[1..], i)
  }

  /** `regex_search`: the first way to match at the leftmost position, from `i` on, that has one. */
  function Search(re: Regex, s: string, i: nat): Option<Hit>
    decreases if i <= |s| then |s| - i else 0
  {
    if i > |s| then None
    else
      var hits := Matches(re, s, i, []);
      if hits != [] then Some(hits[0]) else if i == |s| then None else Search(re, s, i + 1)
  }

  const PROTO := Both(Group(Either(Word("udp"), Either(Word("tcp"), Word("unix")))),
                      Both(Word("://"), Group(Plus(PathChars))))

  const IPPORT := Both(Group(Plus(IpChars)), Both(Word(":"), Group(Plus(PortChars))))

  datatype Outcome = NoMatches | UnixPath(path: string) | Inet(ip: string, port: nat) | InvalidArgument | OutOfRange

  function Slice(s: string, lo: nat, hi: nat): string {
    if lo <= hi <= |s| then s[lo..hi] else []
  }

  function GroupText(s: string, h: Hit, n: nat): string {
    if n < |h.groups| then Slice(s, h.groups[n].0, h.groups[n].1) else []
  }

  function RunEnd(s: string, i: nat, cls: Class): (e: nat)
    requires i <= |s|
    ensures i <= e <= |s|
    ensures forall k :: i <= k < e ==> In(s[k], cls)
    ensures e < |s| ==> !In(s[e], cls)
    decreases |s| - i
  {
    if i < |s| && In(s[i], cls) then RunEnd(s, i + 1, cls) else i
  }

  function DigitValue(c: char): nat
    requires Digit(c)
  {
    c as int - '0' as int
  }

  function Value(ds: string): nat
    requires forall k :: 0 <= k < |ds| ==> Digit(ds[k])
  {
    if ds == [] then 0 else 10 * Value(ds[..|ds| - 1]) + DigitValue(ds[|ds| - 1])
  }

  /** `stoi` on text without signs or spaces, then the narrowing to 16 bits. */
  function PortOf(sport: string, ip: string): Outcome {
    var k := RunEnd(sport, 0, Digits);
    if k == 0 then InvalidArgument
    else if Value(sport[..k]) > 0x7FFF_FFFF then OutOfRange
    else Inet(ip, Value(sport[..k]) % 0x1_0000)
  }

  /** `filter`. When the second search finds nothing its groups read as empty, and `stoi` throws on the empty string. */
  function Filter(addr: string): Outcome {
    match Search(PROTO, addr, 0)
    case None => NoMatches
    case Some(m) =>
      if GroupText(addr, m, 0) == "unix" then UnixPath(GroupText(addr, m, 1))
      else
        var ss := GroupText(addr, m, 1);
        match Search(IPPORT, ss, 0)
        case None => PortOf("", "")
        case Some(mm) => PortOf(GroupText(ss, mm, 1), GroupText(ss, mm, 0))
  }

  // The scanner.

  predicate At(s: string, i: nat, w: string) {
    i + |w| <= |s| && s[i..i + |w|] == w
  }

  /** Length of the protocol name at `i`, or 0. */
  function ProtoLength(s: string, i: nat): nat {
    if At(s, i, "udp") || At(s, i, "tcp") then 3 else if At(s, i, "unix") then 4 else 0
  }

  /** Start of the text after the protocol at `i`, or 0 when no address starts at `i`. */
  function BodyAt(s: string, i: nat): nat {
    var n := ProtoLength(s, i);
    if n > 0 && At(s, i + n, "://") && i + n + 3 < |s| && In(s[i + n + 3], PathChars) then i + n + 3 else 0
  }

  function ScanAddress(s: string, i: nat): Outcome
    requires i <= |s|
    decreases |s| - i
  {
    var b := BodyAt(s, i);
    if b > 0 then
      var body := s[b..RunEnd(s, b, PathChars)];
      if At(s, i, "unix") then UnixPath(body) else ScanHost(body, 0, 0)
    else if i == |s| then NoMatches
    else ScanAddress(s, i + 1)
  }

  /** `start` is where the current stretch of host characters began. */
  function ScanHost(t: string, start: nat, i: nat): Outcome
    requires start <= i <= |t|
    decreases |t| - i
  {
    if i == |t| then InvalidArgument
    else if In(t[i], IpChars) then ScanHost(t, start, i + 1)
    else if start < i && t[i] == ':' && i + 1 < |t| && In(t[i + 1], PortChars) then
      PortOf(t[i + 1..RunEnd(t, i + 1, PortChars)], t[start..i])
    else ScanHost(t, i + 1, i + 1)
  }

  function Scan(addr: string): Outcome {
    ScanAddress(addr, 0)
  }

  // The searches, position by position.

  /** The matches of a captured greedy repetition from `i`, whose longest ends at `e`. */
  function Greedy(i: nat, e: nat, groups: seq<(nat, nat)>): (hits: seq<Hit>)
    ensures i < e ==> hits != [] && hits[0] == Hit(e, groups + [(i, e)])
  {
    if e <= i then [] else [Hit(e, groups + [(i, e)])] + Greedy(i, e - 1, groups)
  }

  function Descending(i: nat, e: nat, groups: seq<(nat, nat)>): seq<Hit> {
    if e <= i then [] else [Hit(e, groups)] + Descending(i, e - 1, groups)
  }

  lemma {:induction false} DescendingExtends(i: nat, e: nat, groups: seq<(nat, nat)>)
    requires i < e
    ensures Descending(i, e, groups) == Descending(i + 1, e, groups) + [Hit(i + 1, groups)]
  {
    if i + 1 < e {
      DescendingExtends(i, e - 1, groups);
    } else {
      assert Descending(i, i, groups) == [];
    }
  }

  lemma {:induction false} PlusDescends(cls: Class, s: string, i: nat, groups: seq<(nat, nat)>)
    requires i <= |s|
    ensures Matches(Plus(cls), s, i, groups) == Descending(i, RunEnd(s, i, cls), groups)
    decreases |s| - i
  {
    if i < |s| && In(s[i], cls) {
      PlusDescends(cls, s, i + 1, groups);
      DescendingExtends(i, RunEnd(s, i, cls), groups);
    }
  }

  lemma {:induction false} CloseDescending(i: nat, e: nat, groups: seq<(nat, nat)>)
    ensures Close(Descending(i, e, groups), i) == Greedy(i, e, groups)
    decreases e
  {
    if e > i {
      CloseDescending(i, e - 1, groups);
      assert Descending(i, e, groups)[1..] == Descending(i, e - 1, groups);
    }
  }

  lemma GroupPlus(cls: Class, s: string, i: nat, groups: seq<(nat, nat)>)
    requires i <= |s|
    ensures Matches(Group(Plus(cls)), s, i, groups) == Greedy(i, RunEnd(s, i, cls), groups)
  {
    PlusDescends(cls, s, i, groups);
    CloseDescending(i, RunEnd(s, i, cls), groups);
  }

  lemma ContinueOne(h: Hit, re: Regex, s: string)
    ensures Continue([h], re, s) == Matches(re, s, h.end, h.groups)
  {
    assert Continue([h][1..], re, s) == [];
  }

  /** A word, then a captured repetition. */
  lemma WordThenPlus(w: string, cls: Class, s: string, i: nat, groups: seq<(nat, nat)>)
    ensures Matches(Both(Word(w), Group(Plus(cls))), s, i, groups)
            == if At(s, i, w) then Greedy(i + |w|, RunEnd(s, i + |w|, cls), groups) else []
  {
    if At(s, i, w) {
      ContinueOne(Hit(i + |w|, groups), Group(Plus(cls)), s);
      GroupPlus(cls, s, i + |w|, groups);
    }
  }

  lemma NamesDiffer(s: string, i: nat)
    ensures At(s, i, "udp") ==> s[i] == 'u' && s[i + 1] == 'd'
    ensures At(s, i, "tcp") ==> s[i] == 't'
    ensures At(s, i, "unix") ==> s[i] == 'u' && s[i + 1] == 'n'
  {
    if At(s, i, "udp") {
      assert s[i..i + 3][0] == s[i] && s[i..i + 3][1] == s[i + 1];
    }
    if At(s, i, "tcp") {
      assert s[i..i + 3][0] == s[i];
    }
    if At(s, i, "unix") {
      assert s[i..i + 4][0] == s[i] && s[i..i + 4][1] == s[i + 1];
    }
  }

  lemma ProtoName(s: string, i: nat)
    ensures var n := ProtoLength(s, i);
            Matches(Group(Either(Word("udp"), Either(Word("tcp"), Word("unix")))), s, i, [])
            == if n == 0 then [] else [Hit(i + n, [(i, i + n)])]
    ensures ProtoLength(s, i) == 4 <==> At(s, i, "unix")
  {
    var names := Matches(Either(Word("udp"), Either(Word("tcp"), Word("unix"))), s, i, []);
    var n := ProtoLength(s, i);
    NamesDiffer(s, i);
    var u, t, x := Matches(Word("udp"), s, i, []), Matches(Word("tcp"), s, i, []), Matches(Word("unix"), s, i, []);
    assert Matches(Either(Word("tcp"), Word("unix")), s, i, []) == t + x;
    assert names == u + (t + x);
    assert names == if n == 0 then [] else [Hit(i + n, [])];
    if n > 0 {
      assert Close([Hit(i + n, [])][1..], i) == [];
      assert [] + [(i, i + n)] == [(i, i + n)];
    }
  }

  lemma ProtoThen(s: string, i: nat)
    ensures var n := ProtoLength(s, i);
            Matches(PROTO, s, i, [])
            == if n == 0 then [] else Matches(Both(Word("://"), Group(Plus(PathChars))), s, i + n, [(i, i + n)])
  {
    var n, tail := ProtoLength(s, i), Both(Word("://"), Group(Plus(PathChars)));
    ProtoName(s, i);
    if n > 0 {
      ContinueOne(Hit(i + n, [(i, i + n)]), tail, s);
    }
  }

  /** The first pattern matches at `i` exactly when the scanner finds a body there, and then takes all of it. */
  lemma ProtoAt(s: string, i: nat)
    ensures var hits, b := Matches(PROTO, s, i, []), BodyAt(s, i);
            if b == 0 then hits == []
            else hits != [] && b < |s|
                 && hits[0].groups == [(i, i + ProtoLength(s, i)), (b, RunEnd(s, b, PathChars))]
  {
    var n := ProtoLength(s, i);
    ProtoThen(s, i);
    if n > 0 {
      WordThenPlus("://", PathChars, s, i + n, [(i, i + n)]);
    }
  }

  /** Shorter stretches of host characters cannot be followed by ':'. */
  lemma {:induction false} NoShorter(t: string, i: nat, e: nat, tail: Regex)
    requires e <= |t| && tail == Both(Word(":"), Group(Plus(PortChars)))
    requires forall k :: i < k <= e ==> k < |t| && t[k] != ':'
    ensures Continue(Greedy(i, e, []), tail, t) == []
    decreases e
  {
    if e > i {
      WordThenPlus(":", PortChars, t, e, [] + [(i, e)]);
      assert t[e] != ':';
      NoShorter(t, i, e - 1, tail);
      assert Greedy(i, e, [])[1..] == Greedy(i, e - 1, []);
    }
  }

  /** Whether the second pattern matches at `i`: host characters, the colon right after them, and a port character. */
  predicate HostAt(t: string, i: nat)
    requires i <= |t|
  {
    var e := RunEnd(t, i, IpChars);
    i < e && e + 1 < |t| && t[e] == ':' && In(t[e + 1], PortChars)
  }

  /** Of all stretches of host characters at `i` only the longest can go on. */
  lemma LongestGoesOn(t: string, i: nat, e: nat, tail: Regex)
    requires i < e <= |t| && e == RunEnd(t, i, IpChars) && tail == Both(Word(":"), Group(Plus(PortChars)))
    ensures Continue(Greedy(i, e, []), tail, t) == Matches(tail, t, e, [(i, e)])
  {
    var hits := Greedy(i, e, []);
    assert [] + [(i, e)] == [(i, e)];
    assert hits[0] == Hit(e, [(i, e)]) && hits[1..] == Greedy(i, e - 1, []);
    NoShorter(t, i, e - 1, tail);
    assert Continue(hits, tail, t) == Matches(tail, t, e, [(i, e)]) + [];
  }

  lemma IpPortAt(t: string, i: nat)
    requires i <= |t|
    ensures var hits, e := Matches(IPPORT, t, i, []), RunEnd(t, i, IpChars);
            if HostAt(t, i) then hits != [] && hits[0].groups == [(i, e), (e + 1, RunEnd(t, e + 1, PortChars))]
            else hits == []
  {
    var e := RunEnd(t, i, IpChars);
    var tail := Both(Word(":"), Group(Plus(PortChars)));
    GroupPlus(IpChars, t, i, []);
    if e > i {
      LongestGoesOn(t, i, e, tail);
      WordThenPlus(":", PortChars, t, e, [(i, e)]);
      assert At(t, e, ":") <==> e < |t| && t[e] == ':';
    }
  }

  /** From inside a stretch of host characters the scanner's answer does not depend on how far it has read. */
  lemma {:induction false} ScanSkips(t: string, start: nat, i: nat)
    requires start <= i && start <= |t| && i <= RunEnd(t, start, IpChars)
    ensures ScanHost(t, start, start) == ScanHost(t, start, i)
    decreases i
  {
    if start < i {
      ScanSkips(t, start, i - 1);
    }
  }

  function HostOutcome(t: string, found: Option<Hit>): Outcome {
    match found
    case None => PortOf("", "")
    case Some(mm) => PortOf(GroupText(t, mm, 1), GroupText(t, mm, 0))
  }

  /** No match starts inside a stretch of host characters at whose start none does. */
  lemma {:induction false} SearchSkips(t: string, i: nat, e: nat)
    requires i <= e <= |t| && e == RunEnd(t, i, IpChars) && !HostAt(t, i)
    ensures e < |t| ==> Search(IPPORT, t, i) == Search(IPPORT, t, e + 1)
    ensures e == |t| ==> Search(IPPORT, t, i) == None
    decreases e - i
  {
    IpPortAt(t, i);
    if i < e {
      assert RunEnd(t, i + 1, IpChars) == e;
      SearchSkips(t, i + 1, e);
    }
  }

  lemma HostFound(t: string, i: nat)
    requires i <= |t| && HostAt(t, i)
    ensures ScanHost(t, i, i) == HostOutcome(t, Search(IPPORT, t, i))
  {
    ScanSkips(t, i, RunEnd(t, i, IpChars));
    IpPortAt(t, i);
  }

  lemma {:induction false} HostScanned(t: string, i: nat)
    requires i <= |t|
    ensures ScanHost(t, i, i) == HostOutcome(t, Search(IPPORT, t, i))
    decreases |t| - i
  {
    var e := RunEnd(t, i, IpChars);
    if HostAt(t, i) {
      HostFound(t, i);
    } else {
      SearchSkips(t, i, e);
      ScanSkips(t, i, e);
      if e < |t| {
        HostScanned(t, e + 1);
      }
    }
  }

  lemma {:induction false} AddressScanned(s: string, i: nat)
    requires i <= |s|
    ensures ScanAddress(s, i)
            == match Search(PROTO, s, i)
               case None => NoMatches
               case Some(m) =>
                 if GroupText(s, m, 0) == "unix" then UnixPath(GroupText(s, m, 1))
                 else HostOutcome(GroupText(s, m, 1), Search(IPPORT, GroupText(s, m, 1), 0))
    decreases |s| - i
  {
    ProtoAt(s, i);
    ProtoName(s, i);
    var b := BodyAt(s, i);
    if b > 0 {
      HostScanned(s[b..RunEnd(s, b, PathChars)], 0);
    } else if i < |s| {
      AddressScanned(s, i + 1);
    }
  }

  /** On every string the scanner gives what the two backtracking searches give. */
  lemma ScanIsFilter(addr: string)
    ensures Scan(addr) == Filter(addr)
  {
    AddressScanned(addr, 0);
  }

  // Printing an address and reading it back.

  function Decimal(n: nat): (ds: string)
    ensures ds != [] && forall k :: 0 <= k < |ds| ==> Digit(ds[k])
  {
    var last := (n % 10 + '0' as int) as char;
    if n < 10 then [last] else Decimal(n / 10) + [last]
  }

  lemma {:induction false} DecimalValue(n: nat)
    ensures Value(Decimal(n)) == n
  {
    if n >= 10 {
      DecimalValue(n / 10);
      assert Decimal(n)[..|Decimal(n)| - 1] == Decimal(n / 10);
    }
  }

  lemma {:induction false} RunOf(s: string, i: nat, e: nat, cls: Class)
    requires i <= e <= |s| && (forall k :: i <= k < e ==> In(s[k], cls)) && (e < |s| ==> !In(s[e], cls))
    ensures RunEnd(s, i, cls) == e
    decreases e - i
  {
    if i < e {
      RunOf(s, i + 1, e, cls);
    }
  }

  /** Text over a given set of characters. */
  predicate Over(text: string, chars: string) {
    forall k :: 0 <= k < |text| ==> text[k] in chars
  }

  lemma OverHost(text: string)
    requires Over(text, HOST_CHARS)
    ensures forall k :: 0 <= k < |text| ==> In(text[k], IpChars) && In(text[k], PathChars)
  {
    forall k | 0 <= k < |text| ensures In(text[k], IpChars) && In(text[k], PathChars) {
      ClassMembers(text[k]);
    }
  }

  /** No address starts where there is no 'u' and no 't'. */
  lemma {:induction false} SkipBefore(s: string, i: nat, n: nat)
    requires i <= n <= |s| && forall k :: i <= k < n ==> s[k] != 'u' && s[k] != 't'
    ensures ScanAddress(s, i) == ScanAddress(s, n)
    decreases n - i
  {
    if i < n {
      NamesDiffer(s, i);
      SkipBefore(s, i + 1, n);
    }
  }

  /** At `n` the body of an address begins after protocol `proto`, and runs up to `e`. */
  predicate BodyIs(s: string, n: nat, proto: string, e: nat, body: string) {
    && n + |proto| + 3 < e <= |s| && At(s, n, proto) && At(s, n + |proto|, "://")
    && e == RunEnd(s, n + |proto| + 3, PathChars) && s[n + |proto| + 3..e] == body
  }

  lemma ProtoScanned(s: string, n: nat, proto: string, e: nat, body: string)
    requires (proto == "udp" || proto == "tcp" || proto == "unix") && BodyIs(s, n, proto, e, body)
    ensures ScanAddress(s, n) == if proto == "unix" then UnixPath(body) else ScanHost(body, 0, 0)
  {
    NamesDiffer(s, n);
  }

  /** `stoi` reads the leading digits and nothing after them. */
  lemma PortOfLeading(sport: string, ds: string, ip: string)
    requires ds != [] && ds <= sport && (forall k :: 0 <= k < |ds| ==> Digit(ds[k]))
    requires |ds| < |sport| ==> !Digit(sport[|ds|])
    ensures PortOf(sport, ip) == PortOf(ds, ip)
  {
    RunOf(sport, 0, |ds|, Digits);
    RunOf(ds, 0, |ds|, Digits);
    assert sport[..|ds|] == ds == ds[..|ds|];
  }

  lemma PortOfDecimal(port: nat, ip: string)
    ensures PortOf(Decimal(port), ip) == if port > 0x7FFF_FFFF then OutOfRange else Inet(ip, port % 0x1_0000)
  {
    var ds := Decimal(port);
    RunOf(ds, 0, |ds|, Digits);
    assert ds[..|ds|] == ds;
    DecimalValue(port);
  }

  /** `t` is `first` followed by `second`. */
  predicate Parts(t: string, first: string, second: string) {
    && |t| == |first| + |second|
    && (forall k :: 0 <= k < |first| ==> t[k] == first[k])
    && (forall k :: |first| <= k < |t| ==> t[k] == second[k - |first|])
  }

  lemma PartsSlices(t: string, first: string, second: string)
    requires Parts(t, first, second)
    ensures t[..|first|] == first && t[|first|..] == second && t == first + second
  {
  }

  lemma RunCovers(s: string, i: nat, n: nat, cls: Class)
    requires i <= n <= |s| && forall k :: i <= k < n ==> In(s[k], cls)
    ensures RunEnd(s, i, cls) >= n
  {
  }

  /** Host characters, a colon, and the port characters after it. */
  lemma BodyScanned(t: string, ip: string, tail: string)
    requires ip != [] && Over(ip, HOST_CHARS) && Parts(t, ip, tail)
    requires |tail| > 1 && tail[0] == ':' && In(tail[1], PortChars)
    ensures ScanHost(t, 0, 0) == PortOf(t[|ip| + 1..RunEnd(t, |ip| + 1, PortChars)], ip)
  {
    var n := |ip|;
    OverHost(ip);
    PartsSlices(t, ip, tail);
    RunOf(t, 0, n, IpChars);
    ScanSkips(t, 0, n);
    assert t[0..n] == ip;
  }

  /** A colon, then digits, then text that does not go on with a digit. */
  predicate PortTail(tail: string, ds: string, after: string) {
    && ds != [] && (forall k :: 0 <= k < |ds| ==> Digit(ds[k]))
    && (after == [] || !Digit(after[0]))
    && Parts(tail, [':'] + ds, after)
  }

  lemma PortScanned(t: string, ip: string, tail: string, ds: string, after: string)
    requires ip != [] && Over(ip, HOST_CHARS) && Parts(t, ip, tail) && PortTail(tail, ds, after)
    ensures ScanHost(t, 0, 0) == PortOf(ds, ip)
  {
    var n, m := |ip| + 1, |ip| + 1 + |ds|;
    assert forall k :: n <= k < m ==> t[k] == tail[k - |ip|] == ([':'] + ds)[k - |ip|] == ds[k - n];
    BodyScanned(t, ip, tail);
    RunCovers(t, n, m, PortChars);
    var sport := t[n..RunEnd(t, n, PortChars)];
    assert forall k :: 0 <= k < |ds| ==> sport[k] == t[n + k] == ds[k];
    assert |ds| < |sport| ==> sport[|ds|] == t[m] == tail[|ds| + 1] == after[0];
    PortOfLeading(sport, ds, ip);
  }

  /** The body of such an address takes in all of host and port, and an initial part of what follows. */
  lemma BodyEnd(rest: string, ip: string, tail: string, ds: string, after: string) returns (e: nat)
    requires ip != [] && Over(ip, HOST_CHARS) && Parts(rest, ip, tail) && PortTail(tail, ds, after)
    ensures 0 < e <= |rest| && e == RunEnd(rest, 0, PathChars)
    ensures |ip| < e && PortTail(tail[..e - |ip|], ds, after[..e - |ip| - 1 - |ds|])
    ensures Parts(rest[..e], ip, tail[..e - |ip|])
  {
    var m := |ip| + 1 + |ds|;
    OverHost(ip);
    assert forall k :: |ip| <= k < m ==> rest[k] == tail[k - |ip|] == ([':'] + ds)[k - |ip|];
    RunCovers(rest, 0, m, PathChars);
    e := RunEnd(rest, 0, PathChars);
  }

  function Address(before: string, proto: string, rest: string): string {
    before + proto + "://" + rest
  }

  /** `addr` holds an address with protocol `proto` and body `rest`, before which none can start. */
  predicate Holds(addr: string, before: string, proto: string, rest: string) {
    'u' !in before && 't' !in before && addr == Address(before, proto, rest)
  }

  /** `addr` with the protocol at `n`, no start of one before it, and `rest` after it. */
  predicate Laid(addr: string, n: nat, proto: string, rest: string) {
    && n + |proto| + 3 + |rest| == |addr| && (forall k :: 0 <= k < n ==> addr[k] != 'u' && addr[k] != 't')
    && At(addr, n, proto) && At(addr, n + |proto|, "://")
    && forall k :: n + |proto| + 3 <= k < |addr| ==> addr[k] == rest[k - n - |proto| - 3]
  }

  lemma LaidOut(addr: string, before: string, proto: string, rest: string)
    requires Holds(addr, before, proto, rest)
    ensures Laid(addr, |before|, proto, rest)
  {
    var n, m, b := |before|, |before| + |proto|, |before| + |proto| + 3;
    assert forall k :: 0 <= k < n ==> addr[k] == before[k];
    assert addr[..m] == before + proto && addr[..b] == before + proto + "://";
    assert addr[n..m] == addr[..m][n..] == proto;
    assert addr[m..b] == addr[..b][m..] == "://";
    assert addr[b..] == rest;
  }

  lemma SkippedTo(addr: string, n: nat, proto: string, rest: string, e: nat)
    requires Laid(addr, n, proto, rest) && 0 < e <= |rest| && e == RunEnd(rest, 0, PathChars)
    ensures n <= |addr| && ScanAddress(addr, 0) == ScanAddress(addr, n)
    ensures BodyIs(addr, n, proto, n + |proto| + 3 + e, rest[..e])
  {
    var b := n + |proto| + 3;
    RunOf(addr, b, b + e, PathChars);
    assert addr[b..b + e] == rest[..e];
    SkipBefore(addr, 0, n);
  }

  lemma FilterFrom(addr: string, n: nat, proto: string, e: nat, body: string)
    requires (proto == "udp" || proto == "tcp" || proto == "unix") && BodyIs(addr, n, proto, e, body)
    requires ScanAddress(addr, 0) == ScanAddress(addr, n)
    ensures Filter(addr) == if proto == "unix" then UnixPath(body) else ScanHost(body, 0, 0)
  {
    ProtoScanned(addr, n, proto, e, body);
    ScanIsFilter(addr);
  }

  /** What the filter makes of it, when the body runs up to `e`. */
  lemma FilterBody(addr: string, n: nat, proto: string, rest: string, e: nat)
    requires (proto == "udp" || proto == "tcp" || proto == "unix") && Laid(addr, n, proto, rest)
    requires 0 < e <= |rest| && e == RunEnd(rest, 0, PathChars)
    ensures Filter(addr) == if proto == "unix" then UnixPath(rest[..e]) else ScanHost(rest[..e], 0, 0)
  {
    var body := rest[..e];
    SkippedTo(addr, n, proto, rest, e);
    assert BodyIs(addr, n, proto, n + |proto| + 3 + e, body);
    FilterFrom(addr, n, proto, n + |proto| + 3 + e, body);
  }

  lemma PrintedBody(rest: string, ip: string, port: nat, after: string) returns (e: nat)
    requires ip != [] && Over(ip, HOST_CHARS) && (after == [] || after[0] !in DIGITS)
    requires rest == ip + ":" + Decimal(port) + after
    ensures 0 < e <= |rest| && e == RunEnd(rest, 0, PathChars)
    ensures ScanHost(rest[..e], 0, 0) == if port > 0x7FFF_FFFF then OutOfRange else Inet(ip, port % 0x1_0000)
  {
    var ds := Decimal(port);
    var tail := [':'] + ds + after;
    assert rest == ip + tail;
    if after != [] {
      ClassMembers(after[0]);
    }
    e := BodyEnd(rest, ip, tail, ds, after);
    PortScanned(rest[..e], ip, tail[..e - |ip|], ds, after[..e - |ip| - 1 - |ds|]);
    PortOfDecimal(port, ip);
  }

  /** `addr` holds a printed address: protocol, host, decimal port, and text that does not go on with a digit. */
  predicate Printed(addr: string, before: string, proto: string, ip: string, port: nat, after: string) {
    && (proto == "udp" || proto == "tcp") && Holds(addr, before, proto, ip + ":" + Decimal(port) + after)
    && ip != [] && Over(ip, HOST_CHARS) && (after == [] || after[0] !in DIGITS)
  }

  /**
   What comes back from a printed address, for either protocol, every host text and every port number, with any text
   before it in which no protocol name can start and any text after it that does not go on with a digit.
   */
  lemma PrintedAddress(addr: string, before: string, proto: string, ip: string, port: nat, after: string)
    requires Printed(addr, before, proto, ip, port, after)
    ensures Filter(addr) == if port > 0x7FFF_FFFF then OutOfRange else Inet(ip, port % 0x1_0000)
  {
    var rest := ip + ":" + Decimal(port) + after;
    var e := PrintedBody(rest, ip, port, after);
    LaidOut(addr, before, proto, rest);
    FilterBody(addr, |before|, proto, rest, e);
  }

  lemma SameExactly(o: Outcome, ip: string, port: nat)
    requires o == if port > 0x7FFF_FFFF then OutOfRange else Inet(ip, port % 0x1_0000)
    ensures o == Inet(ip, port) <==> port <= 65535
  {
  }

  /** Reading back a printed address gives the host and the port exactly when the port fits 16 bits. */
  lemma AddressRoundTrip(addr: string, before: string, proto: string, ip: string, port: nat, after: string)
    requires Printed(addr, before, proto, ip, port, after)
    ensures Filter(addr) == Inet(ip, port) <==> port <= 65535
  {
    PrintedAddress(addr, before, proto, ip, port, after);
    SameExactly(Filter(addr), ip, port);
  }

  lemma StarBody(rest: string, ip: string, after: string) returns (e: nat)
    requires ip != [] && Over(ip, HOST_CHARS) && after != [] && after[0] in "*," && rest == ip + ":" + after
    ensures 0 < e <= |rest| && e == RunEnd(rest, 0, PathChars) && ScanHost(rest[..e], 0, 0) == InvalidArgument
  {
    var n, tail := |ip|, [':'] + after;
    OverHost(ip);
    ClassMembers(after[0]);
    assert rest == ip + tail;
    RunCovers(rest, 0, n + 2, PathChars);
    e := RunEnd(rest, 0, PathChars);
    assert Parts(rest[..e], ip, tail[..e - n]);
    BodyScanned(rest[..e], ip, tail[..e - n]);
    assert rest[..e][n + 1] == after[0];
  }

  /** A port that does not begin with a digit makes `stoi` throw, although the pattern admits '*' and ','. */
  lemma PortMustStartWithDigit(addr: string, before: string, proto: string, ip: string, after: string)
    requires (proto == "udp" || proto == "tcp") && Holds(addr, before, proto, ip + ":" + after)
    requires ip != [] && Over(ip, HOST_CHARS) && after != [] && after[0] in "*,"
    ensures Filter(addr) == InvalidArgument
  {
    var e := StarBody(ip + ":" + after, ip, after);
    LaidOut(addr, before, proto, ip + ":" + after);
    FilterBody(addr, |before|, proto, ip + ":" + after, e);
  }

  /** A Unix path runs as far as its characters do. */
  lemma UnixAddress(addr: string, before: string, path: string, after: string)
    requires Holds(addr, before, "unix", path + after) && path != [] && Over(path, PATH_CHARS)
    requires after == [] || after[0] !in PATH_CHARS
    ensures Filter(addr) == UnixPath(path)
  {
    var rest := path + after;
    forall k | 0 <= k < |path| ensures In(rest[k], PathChars) {
      ClassMembers(path[k]);
    }
    if after != [] {
      ClassMembers(after[0]);
    }
    RunOf(rest, 0, |path|, PathChars);
    LaidOut(addr, before, "unix", rest);
    FilterBody(addr, |before|, "unix", rest, |path|);
    assert rest[..|path|] == path;
  }

  lemma HyphenBody(rest: string, host: string, after: string)
    requires host != [] && Over(host, HOST_CHARS) && rest == host + "-" + after
    ensures RunEnd(rest, 0, PathChars) == |host| && ScanHost(rest[..|host|], 0, 0) == InvalidArgument
  {
    var n := |host|;
    OverHost(host);
    assert rest[n] == '-' && rest[..n] == host;
    assert forall k :: 0 <= k < n ==> rest[k] == host[k];
    RunOf(rest, 0, n, PathChars);
    RunOf(host, 0, n, IpChars);
    ScanSkips(host, 0, n);
  }

  /** '-' is in neither class, so a hyphen in a host ends the address: without a port before it, `filter` throws. */
  lemma HyphenEndsAddress(addr: string, before: string, proto: string, host: string, after: string)
    requires (proto == "udp" || proto == "tcp") && Holds(addr, before, proto, host + "-" + after)
    requires host != [] && Over(host, HOST_CHARS)
    ensures Filter(addr) == InvalidArgument
  {
    HyphenBody(host + "-" + after, host, after);
    LaidOut(addr, before, proto, host + "-" + after);
    FilterBody(addr, |before|, proto, host + "-" + after, |host|);
  }

  /** An address begins at `k`: a protocol name, "://" and a character of the path class. */
  predicate StartsAt(s: string, k: nat) {
    || (At(s, k, "udp") && At(s, k + 3, "://") && k + 6 < |s| && s[k + 6] in PATH_CHARS)
    || (At(s, k, "tcp") && At(s, k + 3, "://") && k + 6 < |s| && s[k + 6] in PATH_CHARS)
    || (At(s, k, "unix") && At(s, k + 4, "://") && k + 7 < |s| && s[k + 7] in PATH_CHARS)
  }

  lemma StartsWithBody(s: string, k: nat)
    ensures StartsAt(s, k) <==> BodyAt(s, k) > 0
  {
    NamesDiffer(s, k);
    if k + 6 < |s| {
      ClassMembers(s[k + 6]);
    }
    if k + 7 < |s| {
      ClassMembers(s[k + 7]);
    }
  }

  lemma {:induction false} HostIsSomething(t: string, start: nat, i: nat)
    requires start <= i <= |t|
    ensures ScanHost(t, start, i) != NoMatches
    decreases |t| - i
  {
    if i < |t| {
      HostIsSomething(t, start, i + 1);
      HostIsSomething(t, i + 1, i + 1);
    }
  }

  lemma {:induction false} ScanNothing(s: string, i: nat)
    requires i <= |s|
    ensures ScanAddress(s, i) == NoMatches <==> forall k :: i <= k <= |s| ==> BodyAt(s, k) == 0
    decreases |s| - i
  {
    if BodyAt(s, i) > 0 {
      HostIsSomething(s[BodyAt(s, i)..RunEnd(s, BodyAt(s, i), PathChars)], 0, 0);
    } else if i < |s| {
      ScanNothing(s, i + 1);
    }
  }

  /** `filter` finds nothing exactly when an address begins nowhere. */
  lemma NothingFound(addr: string)
    ensures Filter(addr) == NoMatches <==> forall k :: 0 <= k <= |addr| ==> !StartsAt(addr, k)
  {
    ScanNothing(addr, 0);
    ScanIsFilter(addr);
    forall k | 0 <= k <= |addr| ensures StartsAt(addr, k) <==> BodyAt(addr, k) > 0 {
      StartsWithBody(addr, k);
    }
  }

  lemma FourDigits(a: nat, b: nat, c: nat, d: nat, n: nat)
    requires 1 <= a <= 9 && b <= 9 && c <= 9 && d <= 9 && n == 1000 * a + 100 * b + 10 * c + d
    ensures Decimal(n)
            == [('0' as int + a) as char, ('0' as int + b) as char, ('0' as int + c) as char, ('0' as int + d) as char]
  {
    assert n / 10 == 100 * a + 10 * b + c && n / 10 / 10 == 10 * a + b && n / 10 / 10 / 10 == a;
    assert Decimal(a) == [('0' as int + a) as char];
    assert Decimal(10 * a + b) == Decimal(a) + [('0' as int + b) as char];
    assert Decimal(n / 10) == Decimal(10 * a + b) + [('0' as int + c) as char];
  }

  lemma OverIpChars(text: string)
    requires forall k :: 0 <= k < |text| ==> In(text[k], IpChars)
    ensures Over(text, HOST_CHARS)
  {
    forall k | 0 <= k < |text| ensures text[k] in HOST_CHARS {
      ClassMembers(text[k]);
    }
  }

  lemma OverPathChars(text: string)
    requires forall k :: 0 <= k < |text| ==> In(text[k], PathChars)
    ensures Over(text, PATH_CHARS)
  {
    forall k | 0 <= k < |text| ensures text[k] in PATH_CHARS {
      ClassMembers(text[k]);
    }
  }

  lemma StarText() returns (addr: string, proto: string, ip: string, port: nat, none: string)
    ensures Printed(addr, none, proto, ip, port, none)
    ensures addr == "udp://*:3000" && ip == "*" && port == 3000
  {
    addr, proto, ip, port, none := "udp://*:3000", "udp", "*", 3000, "";
    FourDigits(3, 0, 0, 0, port);
    assert ip + ":" + Decimal(port) + none == "*:3000";
    OverIpChars(ip);
  }

  lemma DottedBody(ip: string, port: nat, none: string) returns (body: string)
    requires ip == "1.2.3.4" && port == 5000 && none == ""
    ensures body == "1.2.3.4:5000" && ip + ":" + Decimal(port) + none == body
  {
    FourDigits(5, 0, 0, 0, port);
    body := "1.2.3.4:5000";
  }

  lemma DottedText() returns (addr: string, proto: string, ip: string, port: nat, none: string)
    ensures Printed(addr, none, proto, ip, port, none)
    ensures addr == "tcp://1.2.3.4:5000" && ip == "1.2.3.4" && port == 5000
  {
    addr, proto, ip, port, none := "tcp://1.2.3.4:5000", "tcp", "1.2.3.4", 5000, "";
    var body := DottedBody(ip, port, none);
    OverIpChars(ip);
  }

  lemma PathText()
    ensures Holds("unix:///bob/here", "", "unix", "/bob/here" + "")
  {
    assert "/bob/here" + "" == "/bob/here";
  }

  lemma StarExample() returns (addr: string)
    ensures addr == "udp://*:3000" && Filter(addr) == Inet("*", 3000)
  {
    var proto, ip, port, none;
    addr, proto, ip, port, none := StarText();
    AddressRoundTrip(addr, none, proto, ip, port, none);
  }

  lemma DottedExample() returns (addr: string)
    ensures addr == "tcp://1.2.3.4:5000" && Filter(addr) == Inet("1.2.3.4", 5000)
  {
    var proto, ip, port, none;
    addr, proto, ip, port, none := DottedText();
    AddressRoundTrip(addr, none, proto, ip, port, none);
  }

  lemma PathExample(addr: string)
    requires addr == "unix:///bob/here"
    ensures Filter(addr) == UnixPath("/bob/here")
  {
    PathText();
    OverPathChars("/bob/here");
    UnixAddress(addr, "", "/bob/here", "");
  }

  /** The program's own three calls. */
  lemma FilterExamples()
    ensures Filter("udp://*:3000") == Inet("*", 3000)
    ensures Filter("tcp://1.2.3.4:5000") == Inet("1.2.3.4", 5000)
    ensures Filter("unix:///bob/here") == UnixPath("/bob/here")
  {
    var star := StarExample();
    var dotted := DottedExample();
    PathExample("unix:///bob/here");
  }
}
