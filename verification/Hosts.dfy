/** Host names: the two patterns of internal/controller/provider_controller.go and
    internal/argocd/values.go as languages over ASCII, and the completion of a tenant's host
    to a fully-qualified name. */
module Hosts {
  import opened Wrappers

  predicate Alnum(c: char) {
    '0' <= c <= '9' || 'a' <= c <= 'z' || 'A' <= c <= 'Z'
  }

  predicate AlnumHyphen(c: char) {
    Alnum(c) || c == '-'
  }

  // ---------------------------------------------------------------- the patterns as regular expressions

  datatype Class = AlnumClass | AlnumHyphenClass | DotClass

  predicate InClass(c: char, cls: Class) {
    match cls
    case AlnumClass => Alnum(c)
    case AlnumHyphenClass => AlnumHyphen(c)
    case DotClass => c == '.'
  }

  /** Run is [cls]{0,max}, or [cls]* without a bound; Maybe is r?; Many is r*. */
  datatype Regex =
    | One(cls: Class)
    | Run(cls: Class, max: Option<nat>)
    | Cat(first: Regex, second: Regex)
    | Maybe(r: Regex)
    | Many(r: Regex)

  /** The whole of s is in the language of re. */
  ghost predicate Matches(re: Regex, s: string)
    decreases re, |s|
  {
    match re
    case One(cls) => |s| == 1 && InClass(s[0], cls)
    case Run(cls, max) => (max.Some? ==> |s| <= max.value) && forall c | c in s :: InClass(c, cls)
    case Cat(a, b) => exists i | 0 <= i <= |s| :: Matches(a, s[..i]) && Matches(b, s[i..])
    case Maybe(a) => s == [] || Matches(a, s)
    case Many(a) => s == [] || exists i | 0 < i <= |s| :: Matches(a, s[..i]) && Matches(re, s[i..])
  }

  /** [a-z0-9](?:[a-z0-9-]{0,inner}[a-z0-9])?, ignoring case. */
  function LabelRegex(inner: Option<nat>): Regex {
    Cat(One(AlnumClass), Maybe(Cat(Run(AlnumHyphenClass, inner), One(AlnumClass))))
  }

  function DottedTail(inner: Option<nat>): Regex {
    Many(Cat(One(DotClass), LabelRegex(inner)))
  }

  function HostRegex(inner: Option<nat>): Regex {
    Cat(LabelRegex(inner), DottedTail(inner))
  }

  /** hostPattern of the controller: at most 61 characters between the ends of a label. */
  const HOST_PATTERN := HostRegex(Some(61))

  /** hostKeyPattern of the values compiler: labels of any length. */
  const HOST_KEY_PATTERN := HostRegex(None)

  // ---------------------------------------------------------------- labels

  /** strings.Split(s, "."). */
  function Split(s: string): (labels: seq<string>)
    ensures labels != []
  {
    if s == [] then [[]]
    else if s[0] == '.' then [[]] + Split(s[1..])
    else
      var rest := Split(s[1..]);
      [[s[0]] + rest[0]] + rest[1..]
  }

  /** strings.Join(labels, "."). */
  function Join(labels: seq<string>): string
    requires labels != []
  {
    if |labels| == 1 then labels[0] else labels[0] + "." + Join(labels[1..])
  }

  /** A label in words: not empty, at most inner + 2 characters, alphanumeric at both ends,
      alphanumeric or hyphen inside. */
  predicate LabelOk(l: string, inner: Option<nat>) {
    && |l| >= 1
    && (inner.Some? ==> |l| <= inner.value + 2)
    && Alnum(l[0]) && Alnum(l[|l| - 1])
    && forall c | c in l :: AlnumHyphen(c)
  }

  predicate LabelsOk(labels: seq<string>, inner: Option<nat>) {
    forall l | l in labels :: LabelOk(l, inner)
  }

  lemma JoinDot(labels: seq<string>)
    requires labels != []
    ensures Join([[]] + labels) == "." + Join(labels)
  {
    assert ([[]] + labels)[1..] == labels;
    assert [] + "." + Join(labels) == "." + Join(labels);
  }

  lemma JoinCons(c: char, labels: seq<string>)
    requires labels != []
    ensures Join([[c] + labels[0]] + labels[1..]) == [c] + Join(labels)
  {
    var longer := [[c] + labels[0]] + labels[1..];
    assert longer[1..] == labels[1..];
    if |labels| > 1 {
      assert [c] + (labels[0] + "." + Join(labels[1..])) == ([c] + labels[0]) + "." + Join(labels[1..]);
    }
  }

  lemma {:induction false} JoinSplit(s: string)
    ensures Join(Split(s)) == s
  {
    if s == [] {
    } else {
      JoinSplit(s[1..]);
      if s[0] == '.' {
        JoinDot(Split(s[1..]));
      } else {
        JoinCons(s[0], Split(s[1..]));
      }
      assert s == [s[0]] + s[1..];
    }
  }

  lemma {:induction false} SplitFirst(l: string, t: string)
    requires '.' !in l
    ensures Split(l) == [l]
    ensures Split(l + "." + t) == [l] + Split(t)
  {
    if l == [] {
      assert (l + "." + t)[1..] == t;
    } else {
      SplitFirst(l[1..], t);
      assert (l + "." + t)[1..] == l[1..] + "." + t;
      assert [l[0]] + l[1..] == l;
    }
  }

  /** Split never leaves a dot inside a label. */
  lemma {:induction false} SplitNoDots(s: string)
    ensures forall l | l in Split(s) :: '.' !in l
    ensures |Split(s)| == 1 <==> '.' !in s
  {
    if s == [] {
    } else {
      SplitNoDots(s[1..]);
      var rest := Split(s[1..]);
      if s[0] != '.' {
        assert forall l | l in Split(s) :: l == [s[0]] + rest[0] || l in rest;
      } else {
        assert forall l | l in Split(s) :: l == [] || l in rest;
      }
    }
  }

  predicate TailOk(t: string, inner: Option<nat>) {
    && t != [] && (inner.Some? ==> |t| <= inner.value + 1)
    && Alnum(t[|t| - 1]) && forall c | c in t :: AlnumHyphen(c)
  }

  lemma MatchedTail(t: string, inner: Option<nat>)
    requires Matches(Cat(Run(AlnumHyphenClass, inner), One(AlnumClass)), t)
    ensures TailOk(t, inner)
  {
    var j :| 0 <= j <= |t| && Matches(Run(AlnumHyphenClass, inner), t[..j]) && Matches(One(AlnumClass), t[j..]);
    assert |t[j..]| == 1;
    assert t == t[..j] + [t[j]];
  }

  lemma TailMatches(t: string, inner: Option<nat>)
    requires TailOk(t, inner)
    ensures Matches(Cat(Run(AlnumHyphenClass, inner), One(AlnumClass)), t)
  {
    var j := |t| - 1;
    assert t == t[..j] + [t[j]];
    assert Matches(Run(AlnumHyphenClass, inner), t[..j]) && Matches(One(AlnumClass), t[j..]);
  }

  lemma LabelTailIff(t: string, inner: Option<nat>)
    ensures Matches(Cat(Run(AlnumHyphenClass, inner), One(AlnumClass)), t) <==> TailOk(t, inner)
  {
    if TailOk(t, inner) {
      TailMatches(t, inner);
    } else if Matches(Cat(Run(AlnumHyphenClass, inner), One(AlnumClass)), t) {
      MatchedTail(t, inner);
    }
  }

  lemma LabelRegexIff(l: string, inner: Option<nat>)
    ensures Matches(LabelRegex(inner), l) <==> LabelOk(l, inner)
  {
    var head := One(AlnumClass);
    var tail := Maybe(Cat(Run(AlnumHyphenClass, inner), One(AlnumClass)));
    if l != [] {
      LabelTailIff(l[1..], inner);
      assert l == l[..1] + l[1..];
      assert l[1..] != [] ==> l[|l| - 1] == l[1..][|l[1..]| - 1];
    }
    if Matches(LabelRegex(inner), l) {
      var i :| 0 <= i <= |l| && Matches(head, l[..i]) && Matches(tail, l[i..]);
      assert |l[..i]| == 1;
    }
    if LabelOk(l, inner) {
      assert Matches(head, l[..1]) && Matches(tail, l[1..]);
    }
  }

  lemma LabelHasNoDot(l: string, inner: Option<nat>)
    requires LabelOk(l, inner)
    ensures '.' !in l
  {
  }

  /** One repetition of the group: a dot and a label. */
  lemma DottedLabel(g: string, inner: Option<nat>) returns (next: string)
    requires Matches(Cat(One(DotClass), LabelRegex(inner)), g)
    ensures g == "." + next && LabelOk(next, inner)
  {
    var j :| 0 <= j <= |g| && Matches(One(DotClass), g[..j]) && Matches(LabelRegex(inner), g[j..]);
    next := g[j..];
    assert |g[..j]| == 1 && g == g[..j] + next;
    LabelRegexIff(next, inner);
  }

  lemma LabelThenLabels(l: string, rest: string, inner: Option<nat>)
    requires LabelOk(l, inner) && LabelsOk(Split(rest), inner)
    ensures LabelsOk(Split(l + "." + rest), inner)
  {
    LabelHasNoDot(l, inner);
    SplitFirst(l, rest);
  }

  /** A first label followed by the repeated group of the pattern. */
  lemma {:induction false} TailToLabels(l: string, tail: string, inner: Option<nat>)
    requires LabelOk(l, inner) && Matches(DottedTail(inner), tail)
    ensures LabelsOk(Split(l + tail), inner)
    decreases |tail|
  {
    if tail == [] {
      assert l + tail == l;
      LabelHasNoDot(l, inner);
      SplitFirst(l, "");
    } else {
      var next, rest := FirstGroup(tail, inner);
      TailToLabels(next, rest, inner);
      LabelThenLabels(l, next + rest, inner);
      assert l + tail == l + "." + (next + rest);
    }
  }

  lemma FirstGroup(tail: string, inner: Option<nat>) returns (next: string, rest: string)
    requires Matches(DottedTail(inner), tail) && tail != []
    ensures tail == "." + next + rest && LabelOk(next, inner) && Matches(DottedTail(inner), rest)
  {
    var group := Cat(One(DotClass), LabelRegex(inner));
    var i :| 0 < i <= |tail| && Matches(group, tail[..i]) && Matches(DottedTail(inner), tail[i..]);
    next := DottedLabel(tail[..i], inner);
    rest := tail[i..];
  }

  lemma {:induction false} LabelsToTail(labels: seq<string>, inner: Option<nat>)
    requires labels != [] && LabelsOk(labels, inner)
    ensures Matches(DottedTail(inner), Join(labels)[|labels[0]|..])
    decreases |labels|
  {
    var tail := Join(labels)[|labels[0]|..];
    if |labels| > 1 {
      var rest := labels[1..];
      LabelsToTail(rest, inner);
      assert tail == "." + Join(rest);
      var next := rest[0];
      LabelRegexIff(next, inner);
      var i := 1 + |next|;
      assert Join(rest) == next + Join(rest)[|next|..];
      var g := tail[..i];
      assert g == "." + next;
      assert g[..1] == "." && g[1..] == next;
      assert Matches(One(DotClass), g[..1]);
      assert Matches(Cat(One(DotClass), LabelRegex(inner)), g);
      assert tail[i..] == Join(rest)[|next|..];
    }
  }

  lemma MatchedLabels(s: string, inner: Option<nat>)
    requires Matches(HostRegex(inner), s)
    ensures LabelsOk(Split(s), inner)
  {
    var i :| 0 <= i <= |s| && Matches(LabelRegex(inner), s[..i]) && Matches(DottedTail(inner), s[i..]);
    LabelRegexIff(s[..i], inner);
    TailToLabels(s[..i], s[i..], inner);
    assert s == s[..i] + s[i..];
  }

  lemma LabelsMatch(labels: seq<string>, inner: Option<nat>)
    requires labels != [] && LabelsOk(labels, inner)
    ensures Matches(HostRegex(inner), Join(labels))
  {
    var s, i := Join(labels), |labels[0]|;
    LabelsToTail(labels, inner);
    LabelRegexIff(labels[0], inner);
    assert s[..i] == labels[0];
    assert Matches(LabelRegex(inner), s[..i]) && Matches(DottedTail(inner), s[i..]);
  }

  /** The pattern accepts exactly the names all of whose dot-separated labels are well formed. */
  lemma HostRegexIff(s: string, inner: Option<nat>)
    ensures Matches(HostRegex(inner), s) <==> LabelsOk(Split(s), inner)
  {
    if Matches(HostRegex(inner), s) {
      MatchedLabels(s, inner);
    } else if LabelsOk(Split(s), inner) {
      JoinSplit(s);
      LabelsMatch(Split(s), inner);
    }
  }

  /** hostPattern.MatchString. */
  predicate IsHostName(s: string) {
    LabelsOk(Split(s), Some(61))
  }

  /** isValidHostKey: usable as a key of argocd-tls-certs-cm. */
  predicate IsValidHostKey(s: string) {
    s != "" && |s| <= 253 && LabelsOk(Split(s), None)
  }

  /** The two patterns, with the numbers of section 2.3.4 of RFC 1035 written out. */
  lemma HostPatternsInWords(s: string)
    ensures Matches(HOST_PATTERN, s) <==> IsHostName(s)
    ensures Matches(HOST_KEY_PATTERN, s) <==> LabelsOk(Split(s), None)
    ensures IsHostName(s) <==>
              forall l | l in Split(s) ::
                1 <= |l| <= 63 && Alnum(l[0]) && Alnum(l[|l| - 1]) && forall c | c in l :: AlnumHyphen(c)
    ensures IsValidHostKey(s) <==>
              1 <= |s| <= 253 && forall l | l in Split(s) ::
                1 <= |l| && Alnum(l[0]) && Alnum(l[|l| - 1]) && forall c | c in l :: AlnumHyphen(c)
  {
    HostRegexIff(s, Some(61));
    HostRegexIff(s, None);
  }

  // ---------------------------------------------------------------- completing the host

  predicate IsSpace(c: char) {
    c == ' ' || c == '\t' || c == '\n' || c == '\r' || c == 11 as char || c == 12 as char
  }

  /** strings.TrimSpace over ASCII. */
  function TrimSpace(s: string): string {
    if s != [] && IsSpace(s[0]) then TrimSpace(s[1..])
    else if s != [] && IsSpace(s[|s| - 1]) then TrimSpace(s[..|s| - 1])
    else s
  }

  function TrimDot(s: string): string {
    if s != [] && s[|s| - 1] == '.' then s[..|s| - 1] else s
  }

  /** What url.Parse leaves of the trimmed apiserver URL: the host name, or the URL itself when
      it has none. */
  datatype ApiServer = NoURL | BadURL | ApiHost(host: string)

  function DeriveRootDomain(api: ApiServer): Result<string> {
    match api
    case NoURL => Failure("empty apiserver URL")
    case BadURL => Failure("parsing apiserver URL")
    case ApiHost(host) =>
      var labels := Split(host);
      if |labels| < 3 || labels[0] != "api" then Failure("apiserver host is not shaped like api.<domain>")
      else Success(Join(labels[1..]))
  }

  function ComposeHost(tenantHost: string, api: ApiServer): Result<string> {
    var host := TrimDot(TrimSpace(tenantHost));
    if '.' in host then Success(host)
    else
      var base :- DeriveRootDomain(api);
      Success(host + "." + base)
  }

  datatype ServerExposure = ServerExposure(host: string, allowedIPs: seq<string>)

  datatype Rejection = HostMissing | HostMalformed | BadRange(entry: string) | NoBaseDomain | HostTooLong

  /** The first entry that is not a CIDR range. */
  function FirstBadRange(entries: seq<string>, isCIDR: string -> bool): Option<string> {
    if entries == [] then None
    else if !isCIDR(TrimSpace(entries[0])) then Some(entries[0])
    else FirstBadRange(entries[1..], isCIDR)
  }

  /** Why a request is rejected, if it is. */
  function Verdict(e: Option<ServerExposure>, api: ApiServer, isCIDR: string -> bool): Option<Rejection> {
    if e.None? then None
    else if e.value.host == "" then Some(HostMissing)
    else if !IsHostName(e.value.host) then Some(HostMalformed)
    else if FirstBadRange(e.value.allowedIPs, isCIDR).Some? then
      Some(BadRange(FirstBadRange(e.value.allowedIPs, isCIDR).value))
    else
      match ComposeHost(e.value.host, api)
      case Failure(_) => Some(NoBaseDomain)
      case Success(fqdn) => if |fqdn| > 253 then Some(HostTooLong) else None
  }

  /** validateExposure. */
  method ValidateExposure(e: Option<ServerExposure>, api: ApiServer, isCIDR: string -> bool)
    returns (r: Option<Rejection>)
    ensures r == Verdict(e, api, isCIDR)
    ensures r == None && e.Some? ==>
              forall i | 0 <= i < |e.value.allowedIPs| :: isCIDR(TrimSpace(e.value.allowedIPs[i]))
  {
    if e.None? {
      return None;
    }
    if e.value.host == "" {
      return Some(HostMissing);
    }
    if !IsHostName(e.value.host) {
      return Some(HostMalformed);
    }
    var ranges := e.value.allowedIPs;
    for i := 0 to |ranges|
      invariant FirstBadRange(ranges, isCIDR) == FirstBadRange(ranges[i..], isCIDR)
      invariant forall j | 0 <= j < i :: isCIDR(TrimSpace(ranges[j]))
    {
      assert ranges[i..][1..] == ranges[i + 1..];
      if !isCIDR(TrimSpace(ranges[i])) {
        return Some(BadRange(ranges[i]));
      }
    }
    var fqdn := ComposeHost(e.value.host, api);
    if fqdn.Failure? {
      return Some(NoBaseDomain);
    }
    if |fqdn.value| > 253 {
      return Some(HostTooLong);
    }
    return None;
  }

  // ---------------------------------------------------------------- laws of host resolution

  lemma HostNameEnds(s: string)
    requires IsHostName(s)
    ensures s != "" && Alnum(s[0]) && Alnum(s[|s| - 1])
  {
    JoinSplit(s);
    JoinEnds(Split(s));
  }

  lemma NothingToTrim(s: string)
    requires s != "" && Alnum(s[0]) && Alnum(s[|s| - 1])
    ensures TrimDot(TrimSpace(s)) == s
  {
    TrimShorter(s);
  }

  lemma {:induction false} JoinEnds(labels: seq<string>)
    requires labels != [] && LabelsOk(labels, Some(61))
    ensures var j := Join(labels); j != "" && Alnum(j[0]) && Alnum(j[|j| - 1])
  {
    assert labels[0] in labels;
    if |labels| > 1 {
      JoinEnds(labels[1..]);
    }
  }

  /** "api." and the derived root domain give back the apiserver host; a root domain is derived
      exactly from the hosts that start with the label api and have two labels more. */
  lemma RootDomainRestores(host: string)
    ensures var r := DeriveRootDomain(ApiHost(host));
      && (r.Success? ==> "api." + r.value == host && '.' in r.value)
      && (r.Success? <==> |host| >= 4 && host[..4] == "api." && '.' in host[4..])
  {
    if DeriveRootDomain(ApiHost(host)).Success? {
      RootDomainParts(host);
    }
    if |host| >= 4 && host[..4] == "api." && '.' in host[4..] {
      var t := host[4..];
      assert host == "api" + "." + t;
      SplitFirst("api", t);
      SplitNoDots(t);
    }
  }

  lemma RootDomainParts(host: string)
    requires DeriveRootDomain(ApiHost(host)).Success?
    ensures var base := DeriveRootDomain(ApiHost(host)).value;
      "api." + base == host && '.' in base && |host| >= 4 && host[..4] == "api." && host[4..] == base
  {
    var labels := Split(host);
    JoinSplit(host);
    var base := Join(labels[1..]);
    assert host == "api" + "." + base;
    assert labels[1..][1..] == labels[2..];
    assert base == labels[1] + "." + Join(labels[2..]);
    assert base[|labels[1]|] == '.';
  }

  /** An accepted request is completed to a name of at most 253 characters with a dot in it,
      and the completion does not fail. */
  lemma AcceptedComposes(e: ServerExposure, api: ApiServer, isCIDR: string -> bool)
    requires Verdict(Some(e), api, isCIDR) == None
    ensures var r := ComposeHost(e.host, api);
      && r.Success? && |r.value| <= 253 && '.' in r.value
      && (if '.' in e.host then r.value == e.host
          else DeriveRootDomain(api).Success? && r.value == e.host + "." + DeriveRootDomain(api).value)
  {
    HostNameEnds(e.host);
    NothingToTrim(e.host);
  }

  /** The entries are all CIDR ranges, or the first that is not is the answer. */
  lemma {:induction false} FirstBadRangeIs(entries: seq<string>, isCIDR: string -> bool)
    ensures FirstBadRange(entries, isCIDR).None? ==> forall r | r in entries :: isCIDR(TrimSpace(r))
    ensures FirstBadRange(entries, isCIDR).Some? ==>
              exists i | 0 <= i < |entries| ::
                && FirstBadRange(entries, isCIDR) == Some(entries[i]) && !isCIDR(TrimSpace(entries[i]))
                && forall j | 0 <= j < i :: isCIDR(TrimSpace(entries[j]))
    decreases |entries|
  {
    if entries == [] {
    } else {
      var rest := entries[1..];
      FirstBadRangeIs(rest, isCIDR);
      assert entries == [entries[0]] + rest;
      assert forall r | r in entries :: r == entries[0] || r in rest;
      if isCIDR(TrimSpace(entries[0])) && FirstBadRange(rest, isCIDR).Some? {
        var i :| 0 <= i < |rest| && FirstBadRange(rest, isCIDR) == Some(rest[i]) && !isCIDR(TrimSpace(rest[i]))
                 && forall j | 0 <= j < i :: isCIDR(TrimSpace(rest[j]));
        assert entries[i + 1] == rest[i];
        assert forall j | 0 < j < i + 1 :: entries[j] == rest[j - 1];
      }
    }
  }

  /** The white space of ASCII: tab, line feed, vertical tab, form feed, carriage return, blank. */
  predicate Blank(c: char) {
    c as int in {9, 10, 11, 12, 13, 32}
  }

  lemma SpaceIsBlank(c: char)
    ensures IsSpace(c) <==> Blank(c)
  {
    assert c as int as char == c;
  }

  /** What trimming leaves: all but the white space at either end. */
  lemma {:induction false} TrimSpaceIs(s: string) returns (i: nat, j: nat)
    ensures i <= j <= |s| && TrimSpace(s) == s[i..j]
    ensures (forall k | 0 <= k < i :: Blank(s[k])) && (forall k | j <= k < |s| :: Blank(s[k]))
    ensures i == j || (!Blank(s[i]) && !Blank(s[j - 1]))
    decreases |s|
  {
    if s != [] {
      SpaceIsBlank(s[0]);
      SpaceIsBlank(s[|s| - 1]);
    }
    if s != [] && IsSpace(s[0]) {
      i, j := TrimSpaceIs(s[1..]);
      i, j := i + 1, j + 1;
    } else if s != [] && IsSpace(s[|s| - 1]) {
      i, j := TrimSpaceIs(s[..|s| - 1]);
      assert s[..|s| - 1][i..j] == s[i..j];
    } else {
      i, j := 0, |s|;
      assert s[..] == s;
    }
  }

  /** The bare host fits under the root domain of the apiserver. */
  ghost predicate Completable(host: string, api: ApiServer) {
    api.ApiHost? && exists root: string :: api.host == "api." + root && '.' in root && |host| + 1 + |root| <= 253
  }

  /** An exposure request is accepted exactly when its host is a host name, all its ranges are CIDRs,
      and the completed name has at most 253 characters: a dotted host as it is, a bare one under the
      root domain of an apiserver host api.x.y. */
  lemma AcceptedIff(e: ServerExposure, api: ApiServer, isCIDR: string -> bool)
    ensures Verdict(Some(e), api, isCIDR) == None <==>
      && IsHostName(e.host)
      && (forall r | r in e.allowedIPs :: isCIDR(TrimSpace(r)))
      && (if '.' in e.host then |e.host| <= 253 else Completable(e.host, api))
  {
    FirstBadRangeIs(e.allowedIPs, isCIDR);
    if IsHostName(e.host) {
      HostNameEnds(e.host);
      NothingToTrim(e.host);
      if '.' !in e.host && api.ApiHost? {
        CompletableIff(e.host, api.host);
      }
    }
  }

  lemma CompletableIff(host: string, apiHost: string)
    ensures var root := DeriveRootDomain(ApiHost(apiHost));
      Completable(host, ApiHost(apiHost)) <==> root.Success? && |host + "." + root.value| <= 253
  {
    RootDomainRestores(apiHost);
    forall root: string | apiHost == "api." + root ensures root == apiHost[4..] {
      assert ("api." + root)[4..] == root;
    }
  }

  /** Which reason a rejection gives. */
  lemma RejectionInWords(e: ServerExposure, api: ApiServer, isCIDR: string -> bool)
    ensures var r := Verdict(Some(e), api, isCIDR);
      && (r == Some(HostMissing) <==> e.host == "")
      && (r == Some(HostMalformed) <==> e.host != "" && !IsHostName(e.host))
      && ((r.Some? && r.value.BadRange?) <==>
            IsHostName(e.host) && exists x | x in e.allowedIPs :: !isCIDR(TrimSpace(x)))
      && ((r == Some(NoBaseDomain) || r == Some(HostTooLong)) ==>
            IsHostName(e.host) && forall x | x in e.allowedIPs :: isCIDR(TrimSpace(x)))
      && (r == Some(NoBaseDomain) ==> '.' !in e.host && DeriveRootDomain(api).Failure?)
      && (r == Some(HostTooLong) ==> ComposeHost(e.host, api).Success? && |ComposeHost(e.host, api).value| > 253)
  {
    FirstBadRangeIs(e.allowedIPs, isCIDR);
    if IsHostName(e.host) {
      HostNameEnds(e.host);
      NothingToTrim(e.host);
    }
  }

  lemma {:induction false} JoinLabelsOk(l: string, s: string)
    requires LabelOk(l, Some(61)) && IsHostName(s)
    ensures IsHostName(l + "." + s)
  {
    SplitFirst(l, s);
  }

  /** For an apiserver host that is itself well formed, the completed name of an accepted request
      is in the language of hostPattern, and is a valid key of argocd-tls-certs-cm. */
  lemma AcceptedNameIsWellFormed(e: ServerExposure, host: string, isCIDR: string -> bool)
    requires Verdict(Some(e), ApiHost(host), isCIDR) == None && IsHostName(host)
    ensures var r := ComposeHost(e.host, ApiHost(host));
      r.Success? && Matches(HOST_PATTERN, r.value) && IsValidHostKey(r.value)
  {
    AcceptedComposes(e, ApiHost(host), isCIDR);
    var fqdn := ComposeHost(e.host, ApiHost(host)).value;
    if '.' !in e.host {
      SplitFirst(e.host, "");
      assert e.host in Split(e.host);
      var labels := Split(host);
      var base := Join(labels[1..]);
      JoinSplit(host);
      SplitNoDots(host);
      assert labels[0] in labels;
      SplitFirst("api", base);
      assert Split(host) == ["api"] + Split(base);
      assert forall l | l in Split(base) :: l in Split(host);
      JoinLabelsOk(e.host, base);
    }
    HostPatternsInWords(fqdn);
    assert forall l | l in Split(fqdn) :: LabelOk(l, Some(61)) ==> LabelOk(l, None);
  }

  lemma {:induction false} TrimsAtEnd(s: string)
    requires s != "" && !IsSpace(s[0])
    ensures var n := |TrimSpace(s)|;
      0 < n <= |s| && TrimSpace(s) == s[..n] && forall k | n <= k < |s| :: IsSpace(s[k])
    decreases |s|
  {
    if IsSpace(s[|s| - 1]) {
      TrimsAtEnd(s[..|s| - 1]);
    }
  }

  lemma ComposeFixedIff(s: string, i: nat, j: nat, api: ApiServer)
    requires i < j < |s| && s[i] == '.' == s[j] && !IsSpace(s[0])
    ensures ComposeHost(s, api) == Success(s) <==> s[|s| - 1] != '.' && !IsSpace(s[|s| - 1])
  {
    TrimShorter(s);
    TrimsAtEnd(s);
    var t := TrimDot(TrimSpace(s));
    assert t[i] == '.';
  }

  /** Completing a completed name changes nothing, exactly when the host already had a dot or the
      apiserver host does not end in a dot or a space. (Of these only the dot can occur: the URL is
      trimmed and a URL with a space in its host does not parse.) */
  lemma ComposeIdempotentIff(e: ServerExposure, host: string, isCIDR: string -> bool)
    requires Verdict(Some(e), ApiHost(host), isCIDR) == None
    ensures var fqdn := ComposeHost(e.host, ApiHost(host)).value;
      ComposeHost(fqdn, ApiHost(host)) == Success(fqdn) <==>
        '.' in e.host || (host != "" && host[|host| - 1] != '.' && !IsSpace(host[|host| - 1]))
  {
    AcceptedComposes(e, ApiHost(host), isCIDR);
    HostNameEnds(e.host);
    NothingToTrim(e.host);
    if '.' !in e.host {
      LastOfRoot(host);
      LabelAndRootFixedIff(e.host, DeriveRootDomain(ApiHost(host)).value, ApiHost(host));
    }
  }

  lemma RootOfDottedHost()
    ensures DeriveRootDomain(ApiHost("api.b.c.")) == Success("b.c.")
  {
    var host := "api.b.c.";
    assert host[..4] == "api." && host[4..] == "b.c." && '.' in host[4..];
    RootDomainRestores(host);
    var root := DeriveRootDomain(ApiHost(host)).value;
    assert ("api." + root)[4..] == root;
  }

  lemma DottedHostTrimmed(api: ApiServer)
    ensures ComposeHost("a.b.c.", api) == Success("a.b.c")
  {
    TrimShorter("a.b.c.");
    assert "a.b.c."[..5] == "a.b.c" && '.' in "a.b.c";
  }

  lemma BareHostCompleted(host: string, api: ApiServer)
    requires IsHostName(host) && '.' !in host && DeriveRootDomain(api).Success?
    ensures ComposeHost(host, api) == Success(host + "." + DeriveRootDomain(api).value)
  {
    HostNameEnds(host);
    NothingToTrim(host);
  }

  /** Completion of any host at all: white space at both ends and then one dot go; what is left is taken
      as it is when it has a dot, and else is put under the root of an apiserver host api.x.y. */
  lemma ComposedIs(host: string, api: ApiServer) returns (i: nat, j: nat, k: nat)
    ensures i <= j <= k <= |host| && host[j..k] == (if j < k then "." else "")
    ensures (forall n | 0 <= n < i :: Blank(host[n])) && (forall n | k <= n < |host| :: Blank(host[n]))
    ensures i < k ==> !Blank(host[i]) && !Blank(host[k - 1]) && (j == k ==> host[k - 1] != '.')
    ensures '.' in host[i..j] ==> ComposeHost(host, api) == Success(host[i..j])
    ensures '.' !in host[i..j] ==>
      && (ComposeHost(host, api).Success? <==> Rooted(api))
      && (api.ApiHost? && ComposeHost(host, api).Success? ==>
            exists root: string :: api.host == "api." + root && ComposeHost(host, api).value == host[i..j] + "." + root)
  {
    i, k := TrimSpaceIs(host);
    j := if i < k && host[k - 1] == '.' then k - 1 else k;
    TrimDotIs(host, i, j, k);
    if api.ApiHost? {
      RootIs(api.host);
    }
  }

  lemma TrimDotIs(host: string, i: nat, j: nat, k: nat)
    requires i <= k <= |host| && j == if i < k && host[k - 1] == '.' then k - 1 else k
    ensures TrimDot(host[i..k]) == host[i..j]
  {
  }

  lemma RootIs(apiHost: string)
    ensures var root := DeriveRootDomain(ApiHost(apiHost));
      && (root.Success? <==> Rooted(ApiHost(apiHost)))
      && (root.Success? ==> apiHost == "api." + root.value)
  {
    RootDomainRestores(apiHost);
    forall root: string | apiHost == "api." + root ensures root == apiHost[4..] {
      assert ("api." + root)[4..] == root;
    }
  }

  ghost predicate Rooted(api: ApiServer) {
    api.ApiHost? && exists root: string :: api.host == "api." + root && '.' in root
  }

  lemma LabelIsHost(l: string)
    requires LabelOk(l, Some(61)) && '.' !in l
    ensures IsHostName(l)
  {
    SplitFirst(l, "");
  }

  /** A host with a trailing dot: completed once to a.b.c., and then to a.b.c. */
  lemma IdempotenceFails(isCIDR: string -> bool)
    ensures Verdict(Some(ServerExposure("a", [])), ApiHost("api.b.c."), isCIDR) == None
    ensures ComposeHost("a", ApiHost("api.b.c.")) == Success("a.b.c.")
    ensures ComposeHost("a.b.c.", ApiHost("api.b.c.")) == Success("a.b.c")
  {
    LabelIsHost("a");
    RootOfDottedHost();
    BareHostCompleted("a", ApiHost("api.b.c."));
    DottedHostTrimmed(ApiHost("api.b.c."));
    assert "a" + "." + "b.c." == "a.b.c.";
  }

  lemma LastOfRoot(host: string)
    requires DeriveRootDomain(ApiHost(host)).Success?
    ensures var base := DeriveRootDomain(ApiHost(host)).value;
      '.' in base && host != "" && base[|base| - 1] == host[|host| - 1]
  {
    RootDomainRestores(host);
    var base := DeriveRootDomain(ApiHost(host)).value;
    assert ("api." + base)[|host| - 1] == base[|base| - 1];
  }

  lemma LabelAndRootFixedIff(first: string, base: string, api: ApiServer)
    requires first != "" && Alnum(first[0]) && '.' in base
    ensures var fqdn := first + "." + base;
      ComposeHost(fqdn, api) == Success(fqdn) <==> base[|base| - 1] != '.' && !IsSpace(base[|base| - 1])
  {
    var fqdn := first + "." + base;
    var k :| 0 <= k < |base| && base[k] == '.';
    var i := |first|;
    assert fqdn[i] == '.' && fqdn[i + 1 + k] == base[k];
    assert fqdn[|fqdn| - 1] == base[|base| - 1];
    ComposeFixedIff(fqdn, i, i + 1 + k, api);
  }

  lemma {:induction false} TrimShorter(s: string)
    ensures |TrimSpace(s)| <= |s|
    ensures s != [] && (IsSpace(s[0]) || IsSpace(s[|s| - 1])) ==> |TrimSpace(s)| < |s|
    ensures s != [] && !IsSpace(s[0]) && !IsSpace(s[|s| - 1]) ==> TrimSpace(s) == s
    decreases |s|
  {
    if s != [] && IsSpace(s[0]) {
      TrimShorter(s[1..]);
    } else if s != [] && IsSpace(s[|s| - 1]) {
      TrimShorter(s[..|s| - 1]);
    }
  }
}
