/** Accept-header negotiation (src/exec_rest_api/content_neg.py). */
module ContentNegotiation {
  import opened Wrappers
  import opened Strings

  datatype Candidate = Candidate(media: string, q: real)

  // ---------------------------------------------------------------------
  // Matching one media range
  // ---------------------------------------------------------------------

  predicate EndsWith(s: string, suffix: string) {
    |s| >= |suffix| && s[|s| - |suffix|..] == suffix
  }

  /** Whether a supported type falls under the client's media range. */
  predicate Accepts(range: string, media: string) {
    if range == "*/*" then true
    else if EndsWith(range, "/*") then range[..|range| - 1] <= media
    else media == range
  }

  function FirstMatch(range: string, supported: seq<string>): Option<string> {
    if supported == [] then None
    else if Accepts(range, supported[0]) then Some(supported[0])
    else FirstMatch(range, supported[1..])
  }

  lemma EndsWithExactly(s: string, suffix: string)
    ensures EndsWith(s, suffix) <==> exists t :: s == t + suffix
  {
    if EndsWith(s, suffix) {
      assert s == s[..|s| - |suffix|] + suffix;
    }
  }

  /** The range of all types: the first one in server order. */
  lemma EveryType(supported: seq<string>)
    requires supported != []
    ensures FirstMatch("*/*", supported) == Some(supported[0])
  {
  }

  /** The first of the types that begin with the text. */
  ghost predicate FirstBeginning(supported: seq<string>, text: string, r: Option<string>) {
    match r
    case None => forall i :: 0 <= i < |supported| ==> !(text <= supported[i])
    case Some(media) =>
      exists i :: 0 <= i < |supported| && media == supported[i] && text <= supported[i]
                  && forall j :: 0 <= j < i ==> !(text <= supported[j])
  }

  /** Any other range that ends in a star is the first type that begins with what stands before the star. */
  lemma {:induction false} TypesOf(t: string, supported: seq<string>)
    requires t != "*"
    ensures FirstBeginning(supported, t + "/", FirstMatch(t + "/*", supported))
  {
    var range := t + "/*";
    assert range[|range| - 2..] == "/*" && range[..|range| - 1] == t + "/";
    assert range[..|t|] == t;
    if supported != [] {
      TypesOf(t, supported[1..]);
      var r := FirstMatch(range, supported[1..]);
      if !(t + "/" <= supported[0]) && r.Some? {
        var i :| 0 <= i < |supported[1..]| && r.value == supported[1..][i] && t + "/" <= supported[1..][i]
              && forall j :: 0 <= j < i ==> !(t + "/" <= supported[1..][j]);
        assert supported[i + 1] == supported[1..][i];
        assert forall j :: 1 <= j < i + 1 ==> supported[j] == supported[1..][j - 1];
      }
    }
  }

  /** A range without a star is itself, if it is supported. */
  lemma {:induction false} ExactType(range: string, supported: seq<string>)
    requires range != "*/*" && forall t :: range != t + "/*"
    ensures FirstMatch(range, supported) == if range in supported then Some(range) else None
  {
    EndsWithExactly(range, "/*");
    if supported != [] {
      ExactType(range, supported[1..]);
    }
  }

  /** What each kind of range selects. */
  lemma RangeMeans(range: string, supported: seq<string>)
    requires supported != []
    ensures range == "*/*" ==> FirstMatch(range, supported) == Some(supported[0])
    ensures forall t :: range == t + "/*" && t != "*" ==>
      FirstBeginning(supported, t + "/", FirstMatch(range, supported))
    ensures range != "*/*" && (forall t :: range != t + "/*") ==>
      FirstMatch(range, supported) == if range in supported then Some(range) else None
  {
    forall t | range == t + "/*" && t != "*"
      ensures FirstBeginning(supported, t + "/", FirstMatch(range, supported))
    {
      TypesOf(t, supported);
    }
    if range != "*/*" && forall t :: range != t + "/*" {
      ExactType(range, supported);
    }
  }

  /** The branches and loops of `_match`. */
  method Scan(range: string, supported: seq<string>) returns (r: Option<string>)
    requires supported != []
    ensures r.None? <==> forall i :: 0 <= i < |supported| ==> !Accepts(range, supported[i])
    ensures r.Some? ==> exists i :: 0 <= i < |supported| && r.value == supported[i] && Accepts(range, supported[i])
                                    && forall j :: 0 <= j < i ==> !Accepts(range, supported[j])
    ensures r == FirstMatch(range, supported)
  {
    if range == "*/*" {
      return Some(supported[0]);
    }
    if EndsWith(range, "/*") {
      var prefix := range[..|range| - 2] + "/";
      assert prefix == range[..|range| - 1];
      for i := 0 to |supported|
        invariant forall j :: 0 <= j < i ==> !Accepts(range, supported[j])
        invariant FirstMatch(range, supported) == FirstMatch(range, supported[i..])
      {
        assert supported[i..][1..] == supported[i + 1..];
        if prefix <= supported[i] {
          return Some(supported[i]);
        }
      }
      return None;
    }
    for i := 0 to |supported|
      invariant forall j :: 0 <= j < i ==> !Accepts(range, supported[j])
      invariant FirstMatch(range, supported) == FirstMatch(range, supported[i..])
    {
      assert supported[i..][1..] == supported[i + 1..];
      if supported[i] == range {
        return Some(supported[i]);
      }
    }
    return None;
  }

  /** `_match`: the first supported type, in server order, under the range. */
  method Match(range: string, supported: seq<string>) returns (r: Option<string>)
    requires supported != []
    ensures r.None? <==> forall i :: 0 <= i < |supported| ==> !Accepts(range, supported[i])
    ensures r.Some? ==> exists i :: 0 <= i < |supported| && r.value == supported[i] && Accepts(range, supported[i])
                                    && forall j :: 0 <= j < i ==> !Accepts(range, supported[j])
    ensures r == FirstMatch(range, supported)
    ensures range == "*/*" ==> r == Some(supported[0])
    ensures forall t :: range == t + "/*" && t != "*" ==> FirstBeginning(supported, t + "/", r)
    ensures range != "*/*" && (forall t :: range != t + "/*") ==> r == if range in supported then Some(range) else None
  {
    r := Scan(range, supported);
    RangeMeans(range, supported);
  }

  // ---------------------------------------------------------------------
  // The stable sort
  // ---------------------------------------------------------------------

  /** Before the first candidate that is not strictly preferred. */
  function InsertByQ(c: Candidate, cs: seq<Candidate>): seq<Candidate> {
    if cs == [] || cs[0].q <= c.q then [c] + cs else [cs[0]] + InsertByQ(c, cs[1..])
  }

  /** `candidates.sort(key=lambda c: -c[1])` */
  function SortByQ(cs: seq<Candidate>): seq<Candidate> {
    if cs == [] then [] else InsertByQ(cs[0], SortByQ(cs[1..]))
  }

  ghost predicate Descending(cs: seq<Candidate>) {
    forall i, j :: 0 <= i < j < |cs| ==> cs[i].q >= cs[j].q
  }

  /** The candidates of one quality, in order. */
  function OfQuality(cs: seq<Candidate>, q: real): seq<Candidate> {
    if cs == [] then [] else (if cs[0].q == q then [cs[0]] else []) + OfQuality(cs[1..], q)
  }

  lemma {:induction false} InsertPermutes(c: Candidate, cs: seq<Candidate>)
    ensures multiset(InsertByQ(c, cs)) == multiset{c} + multiset(cs)
  {
    if cs != [] && cs[0].q > c.q {
      InsertPermutes(c, cs[1..]);
      assert cs == [cs[0]] + cs[1..];
    }
  }

  lemma {:induction false} InsertDescends(c: Candidate, cs: seq<Candidate>, bound: real)
    requires Descending(cs) && c.q <= bound && forall i :: 0 <= i < |cs| ==> cs[i].q <= bound
    ensures Descending(InsertByQ(c, cs))
    ensures forall i :: 0 <= i < |InsertByQ(c, cs)| ==> InsertByQ(c, cs)[i].q <= bound
  {
    if cs != [] && cs[0].q > c.q {
      InsertDescends(c, cs[1..], cs[0].q);
    }
  }

  lemma {:induction false} InsertKeepsQuality(c: Candidate, cs: seq<Candidate>, q: real)
    ensures OfQuality(InsertByQ(c, cs), q) == (if c.q == q then [c] else []) + OfQuality(cs, q)
  {
    if cs == [] || cs[0].q <= c.q {
      assert ([c] + cs)[1..] == cs;
    } else {
      InsertKeepsQuality(c, cs[1..], q);
      var first := if cs[0].q == q then [cs[0]] else [];
      assert InsertByQ(c, cs)[1..] == InsertByQ(c, cs[1..]);
      assert OfQuality(InsertByQ(c, cs), q) == first + OfQuality(InsertByQ(c, cs[1..]), q);
      assert cs[0].q == q ==> c.q != q;
    }
  }

  /** The sort is a permutation, descending in quality, and keeps the order among equals. */
  lemma {:induction false} SortIsStable(cs: seq<Candidate>, q: real)
    ensures Descending(SortByQ(cs)) && multiset(SortByQ(cs)) == multiset(cs)
    ensures OfQuality(SortByQ(cs), q) == OfQuality(cs, q)
  {
    if cs != [] {
      SortIsStable(cs[1..], q);
      var c, sorted := cs[0], SortByQ(cs[1..]);
      InsertPermutes(c, sorted);
      InsertKeepsQuality(c, sorted, q);
      InsertDescends(c, sorted, if sorted != [] && sorted[0].q > c.q then sorted[0].q else c.q);
      assert cs == [c] + cs[1..];
    }
  }

  // ---------------------------------------------------------------------
  // Scan of the sorted list against a declarative choice
  // ---------------------------------------------------------------------

  predicate Eligible(c: Candidate, supported: seq<string>) {
    c.q > 0.0 && FirstMatch(c.media, supported).Some?
  }

  function FirstEligible(cs: seq<Candidate>, supported: seq<string>): Option<Candidate> {
    if cs == [] then None
    else if Eligible(cs[0], supported) then Some(cs[0])
    else FirstEligible(cs[1..], supported)
  }

  /** Candidate i is the earliest-listed among the eligible ones of greatest quality. */
  ghost predicate Best(cs: seq<Candidate>, supported: seq<string>, i: nat) {
    && i < |cs| && Eligible(cs[i], supported)
    && (forall j :: 0 <= j < |cs| && Eligible(cs[j], supported) ==> cs[j].q <= cs[i].q)
    && (forall j :: 0 <= j < i && Eligible(cs[j], supported) ==> cs[j].q < cs[i].q)
  }

  lemma EligibleIsMember(cs: seq<Candidate>, supported: seq<string>)
    ensures FirstEligible(cs, supported).Some? ==> FirstEligible(cs, supported).value in cs
  {
  }

  lemma {:induction false} InsertEligible(c: Candidate, cs: seq<Candidate>, supported: seq<string>)
    requires Descending(cs)
    ensures
      var p, r := FirstEligible(cs, supported), FirstEligible(InsertByQ(c, cs), supported);
      r == if Eligible(c, supported) && (p.None? || p.value.q <= c.q) then Some(c) else p
  {
    var r := InsertByQ(c, cs);
    if cs == [] || cs[0].q <= c.q {
      assert r[1..] == cs;
      EligibleIsMember(cs, supported);
    } else {
      InsertEligible(c, cs[1..], supported);
      assert r[1..] == InsertByQ(c, cs[1..]);
    }
  }

  /** Scanning the sorted list finds the declarative best, if there is one. */
  lemma {:induction false} ScanFindsBest(cs: seq<Candidate>, supported: seq<string>) returns (i: nat)
    ensures FirstEligible(SortByQ(cs), supported).None? ==>
      forall j :: 0 <= j < |cs| ==> !Eligible(cs[j], supported)
    ensures FirstEligible(SortByQ(cs), supported).Some? ==>
      Best(cs, supported, i) && FirstEligible(SortByQ(cs), supported).value == cs[i]
  {
    i := 0;
    if cs != [] {
      var k := ScanFindsBest(cs[1..], supported);
      SortIsStable(cs[1..], 0.0);
      InsertEligible(cs[0], SortByQ(cs[1..]), supported);
      assert forall j :: 1 <= j < |cs| ==> cs[j] == cs[1..][j - 1];
      var p := FirstEligible(SortByQ(cs[1..]), supported);
      if p.Some? && !(Eligible(cs[0], supported) && p.value.q <= cs[0].q) {
        i := k + 1;
      }
    }
  }

  // ---------------------------------------------------------------------
  // Parsing
  // ---------------------------------------------------------------------

  /** `s.strip()` */
  function Strip(s: string): string
    decreases |s|
  {
    if s != "" && IsSpace(s[0]) then Strip(s[1..])
    else if s != "" && IsSpace(s[|s| - 1]) then Strip(s[..|s| - 1])
    else s
  }

  function IndexOf(s: string, c: char): (n: nat)
    ensures n <= |s|
  {
    if s == "" || s[0] == c then 0 else 1 + IndexOf(s[1..], c)
  }

  /** `s.split(c)` */
  function Split(s: string, c: char): (parts: seq<string>)
    ensures parts != []
    decreases |s|
  {
    var n := IndexOf(s, c);
    if n == |s| then [s] else [s[..n]] + Split(s[n + 1..], c)
  }

  /** What one parameter says about q: nothing, or a value (1 if it is not a number). */
  function QualityOf(param: string, number: string -> Option<real>): Option<real> {
    var n := IndexOf(param, '=');
    if n == |param| || Lower(Strip(param[..n])) != "q" then None
    else
      match number(Strip(param[n + 1..]))
      case None => Some(1.0)
      case Some(q) => Some(q)
  }

  /** The last parameter that speaks about q decides; without one it is 1. */
  function LastQuality(params: seq<string>, number: string -> Option<real>): real {
    if params == [] then 1.0
    else
      match QualityOf(Strip(params[|params| - 1]), number)
      case Some(q) => q
      case None => LastQuality(params[..|params| - 1], number)
  }

  function CandidateOf(piece: string, number: string -> Option<real>): Candidate {
    var parts := Split(piece, ';');
    Candidate(Lower(Strip(parts[0])), LastQuality(parts[1..], number))
  }

  /** One candidate per non-blank piece, in order. */
  function Candidates(pieces: seq<string>, number: string -> Option<real>): seq<Candidate> {
    if pieces == [] then []
    else
      var last := Strip(pieces[|pieces| - 1]);
      Candidates(pieces[..|pieces| - 1], number) + (if last == "" then [] else [CandidateOf(last, number)])
  }

  /** The loop over one candidate's parameters. */
  method ParseQuality(params: seq<string>, number: string -> Option<real>) returns (q: real)
    ensures q == LastQuality(params, number)
  {
    q := 1.0;
    for k := 0 to |params|
      invariant q == LastQuality(params[..k], number)
    {
      assert params[..k + 1][..k] == params[..k];
      var param := Strip(params[k]);
      var n := IndexOf(param, '=');
      if n < |param| && Lower(Strip(param[..n])) == "q" {
        var parsed := number(Strip(param[n + 1..]));
        q := if parsed.Some? then parsed.value else 1.0;
      }
    }
    assert params[..|params|] == params;
  }

  /** `_parse_accept`; `number` is Python's `float`. */
  method ParseAccept(header: string, number: string -> Option<real>) returns (out: seq<Candidate>)
    ensures out == Candidates(Split(header, ','), number)
  {
    out := [];
    var pieces := Split(header, ',');
    for i := 0 to |pieces|
      invariant out == Candidates(pieces[..i], number)
    {
      assert pieces[..i + 1][..i] == pieces[..i];
      var piece := Strip(pieces[i]);
      if piece != "" {
        var parts := Split(piece, ';');
        var q := ParseQuality(parts[1..], number);
        out := out + [Candidate(Lower(Strip(parts[0])), q)];
      }
    }
    assert pieces[..|pieces|] == pieces;
  }

  // ---------------------------------------------------------------------
  // The parser inverts a printer
  // ---------------------------------------------------------------------

  /** Text that is not empty and has no blank at either end. */
  ghost predicate Trimmed(s: string) {
    s != "" && !IsSpace(s[0]) && !IsSpace(s[|s| - 1])
  }

  ghost predicate Blank(s: string) {
    forall i :: 0 <= i < |s| ==> IsSpace(s[i])
  }

  ghost predicate Without(s: string, separators: set<char>) {
    forall c :: c in separators ==> c !in s
  }

  /** What stands after a parameter's name: blanks, '=', blanks and text. */
  datatype Assigned = Assigned(before: string, after: string, text: string)

  /** A parameter with the blanks around the ';' in front of it. */
  datatype Param = Param(left: string, right: string, name: string, value: Option<Assigned>)

  /** What stands between two commas: nothing but blanks, or a media range with parameters. */
  datatype Element =
    | Nothing(blanks: string)
    | Asks(lead: string, media: string, params: seq<Param>, trail: string)

  function PrintParam(p: Param): string {
    match p.value
    case None => p.name
    case Some(v) => (p.name + v.before) + ("=" + (v.after + v.text))
  }

  /** A media range, or a parameter, and the parameters after it. */
  function PrintParams(head: string, ps: seq<Param>): string
    decreases |ps|
  {
    if ps == [] then head
    else (head + ps[0].left) + (";" + PrintParams(ps[0].right + PrintParam(ps[0]), ps[1..]))
  }

  function PrintElement(e: Element): string {
    match e
    case Nothing(blanks) => blanks
    case Asks(lead, media, params, trail) => lead + (PrintParams(media, params) + trail)
  }

  function PrintAccept(es: seq<Element>): string
    requires es != []
  {
    if |es| == 1 then PrintElement(es[0]) else PrintElement(es[0]) + ("," + PrintAccept(es[1..]))
  }

  ghost predicate GoodParam(p: Param) {
    && Blank(p.left) && Blank(p.right) && Trimmed(p.name) && Without(p.name, {',', ';', '='})
    && (p.value.Some? ==>
          && Blank(p.value.value.before) && Blank(p.value.value.after)
          && Trimmed(p.value.value.text) && Without(p.value.value.text, {',', ';'}))
  }

  ghost predicate GoodParams(ps: seq<Param>) {
    forall i :: 0 <= i < |ps| ==> GoodParam(ps[i])
  }

  ghost predicate GoodElement(e: Element) {
    match e
    case Nothing(blanks) => Blank(blanks)
    case Asks(lead, media, params, trail) =>
      Blank(lead) && Blank(trail) && Trimmed(media) && Without(media, {',', ';'}) && GoodParams(params)
  }

  /** What one parameter says about the quality: a `q` that is not a number counts as 1. */
  function SaysOf(p: Param, number: string -> Option<real>): Option<real> {
    if p.value.None? || Lower(p.name) != "q" then None
    else
      match number(p.value.value.text)
      case Some(q) => Some(q)
      case None => Some(1.0)
  }

  /** The last parameter that says something; without one the quality is 1. */
  function AskedQuality(ps: seq<Param>, number: string -> Option<real>): real {
    if ps == [] then 1.0
    else
      match SaysOf(ps[|ps| - 1], number)
      case Some(q) => q
      case None => AskedQuality(ps[..|ps| - 1], number)
  }

  /** What the elements ask for, in order; blank ones ask for nothing. */
  function AllAsked(es: seq<Element>, number: string -> Option<real>): seq<Candidate> {
    if es == [] then []
    else
      AllAsked(es[..|es| - 1], number)
      + match es[|es| - 1]
        case Nothing(_) => []
        case Asks(_, media, params, _) => [Candidate(Lower(media), AskedQuality(params, number))]
  }

  // Blanks

  lemma TrimmedStays(s: string)
    requires Trimmed(s)
    ensures Strip(s) == s
  {
  }

  lemma {:induction false} StripLead(b: string, s: string)
    requires Blank(b)
    ensures Strip(b + s) == Strip(s)
    decreases |b|
  {
    if b == "" {
      assert b + s == s;
    } else {
      assert (b + s)[0] == b[0] && (b + s)[1..] == b[1..] + s;
      StripLead(b[1..], s);
    }
  }

  lemma {:induction false} StripTrail(s: string, b: string)
    requires Blank(b) && Trimmed(s)
    ensures Strip(s + b) == s
    decreases |b|
  {
    if b == "" {
      assert s + b == s;
      TrimmedStays(s);
    } else {
      var t := s + b;
      assert t[0] == s[0] && t[|t| - 1] == b[|b| - 1] && t[..|t| - 1] == s + b[..|b| - 1];
      StripTrail(s, b[..|b| - 1]);
    }
  }

  lemma StripBoth(a: string, s: string, b: string)
    requires Blank(a) && Blank(b) && Trimmed(s)
    ensures Strip(a + (s + b)) == s && Strip((a + s) + b) == s
  {
    StripLead(a, s + b);
    StripTrail(s, b);
    assert (a + s) + b == a + (s + b);
  }

  lemma {:induction false} StripBlank(b: string)
    requires Blank(b)
    ensures Strip(b) == ""
    decreases |b|
  {
    if b != "" {
      StripBlank(b[1..]);
    }
  }

  // Separators

  lemma {:induction false} IndexOfFirst(a: string, c: char, rest: string)
    requires c !in a
    ensures IndexOf(a + ([c] + rest), c) == |a|
  {
    if a == "" {
      assert a + ([c] + rest) == [c] + rest;
    } else {
      assert (a + ([c] + rest))[1..] == a[1..] + ([c] + rest);
      IndexOfFirst(a[1..], c, rest);
    }
  }

  lemma {:induction false} IndexOfNone(a: string, c: char)
    requires c !in a
    ensures IndexOf(a, c) == |a|
  {
    if a != "" {
      IndexOfNone(a[1..], c);
    }
  }

  lemma SplitFirst(a: string, c: char, rest: string)
    requires c !in a
    ensures Split(a + ([c] + rest), c) == [a] + Split(rest, c)
  {
    var s := a + ([c] + rest);
    IndexOfFirst(a, c, rest);
    assert s[..|a|] == a && s[|a| + 1..] == rest;
  }

  lemma WithoutConcat(a: string, b: string, separators: set<char>)
    requires Without(a, separators) && Without(b, separators)
    ensures Without(a + b, separators)
  {
  }

  lemma BlankWithout(b: string)
    requires Blank(b)
    ensures Without(b, {',', ';', '='})
  {
  }

  // Parameters

  lemma ParamText(p: Param)
    requires GoodParam(p)
    ensures Trimmed(PrintParam(p)) && Without(PrintParam(p), {',', ';'})
  {
    if p.value.Some? {
      var v := p.value.value;
      var s := PrintParam(p);
      assert s[0] == p.name[0] && s[|s| - 1] == v.text[|v.text| - 1];
      BlankWithout(v.before);
      BlankWithout(v.after);
      WithoutConcat(p.name, v.before, {',', ';'});
      WithoutConcat(v.after, v.text, {',', ';'});
      WithoutConcat("=", v.after + v.text, {',', ';'});
      WithoutConcat(p.name + v.before, "=" + (v.after + v.text), {',', ';'});
    }
  }

  lemma ParamSays(p: Param, number: string -> Option<real>)
    requires GoodParam(p)
    ensures QualityOf(PrintParam(p), number) == SaysOf(p, number)
  {
    match p.value
    case None => IndexOfNone(p.name, '=');
    case Some(v) =>
      var name, rest := p.name + v.before, v.after + v.text;
      BlankWithout(v.before);
      WithoutConcat(p.name, v.before, {'='});
      IndexOfFirst(name, '=', rest);
      var s := name + (['='] + rest);
      assert PrintParam(p) == s && s[..|name|] == name && s[|name| + 1..] == rest;
      StripTrail(p.name, v.before);
      StripLead(v.after, v.text);
      TrimmedStays(v.text);
  }

  /** The parts between the semicolons of one element. */
  function Parts(head: string, ps: seq<Param>): (parts: seq<string>)
    ensures |parts| == |ps| + 1
    decreases |ps|
  {
    if ps == [] then [head]
    else [head + ps[0].left] + Parts(ps[0].right + PrintParam(ps[0]), ps[1..])
  }

  lemma {:induction false} ParamsSplit(head: string, ps: seq<Param>)
    requires GoodParams(ps) && Without(head, {',', ';'})
    ensures Split(PrintParams(head, ps), ';') == Parts(head, ps)
    ensures Without(PrintParams(head, ps), {','})
    decreases |ps|
  {
    if ps == [] {
      IndexOfNone(head, ';');
    } else {
      var p := ps[0];
      ParamText(p);
      BlankWithout(p.left);
      BlankWithout(p.right);
      WithoutConcat(head, p.left, {',', ';'});
      WithoutConcat(p.right, PrintParam(p), {',', ';'});
      ParamsSplit(p.right + PrintParam(p), ps[1..]);
      var rest := PrintParams(p.right + PrintParam(p), ps[1..]);
      SplitFirst(head + p.left, ';', rest);
      WithoutConcat(";", rest, {','});
      WithoutConcat(head + p.left, ";" + rest, {','});
    }
  }

  lemma {:induction false} PartsTrimmed(lead: string, head: string, ps: seq<Param>, i: nat)
    requires GoodParams(ps) && Blank(lead) && Trimmed(head) && i <= |ps|
    ensures Strip(Parts(lead + head, ps)[i]) == if i == 0 then head else PrintParam(ps[i - 1])
    decreases |ps|
  {
    if i == 0 {
      StripBoth(lead, head, if ps == [] then "" else ps[0].left);
      assert lead + head == (lead + head) + "";
    } else {
      ParamText(ps[0]);
      PartsTrimmed(ps[0].right, PrintParam(ps[0]), ps[1..], i - 1);
    }
  }

  lemma {:induction false} PartsQuality(parts: seq<string>, ps: seq<Param>, number: string -> Option<real>)
    requires GoodParams(ps) && |parts| == |ps|
    requires forall i :: 0 <= i < |ps| ==> Strip(parts[i]) == PrintParam(ps[i])
    ensures LastQuality(parts, number) == AskedQuality(ps, number)
    decreases |ps|
  {
    if ps != [] {
      var n := |ps| - 1;
      ParamSays(ps[n], number);
      PartsQuality(parts[..n], ps[..n], number);
    }
  }

  // Elements

  lemma {:induction false} ParamsEndTrimmed(b: string, head: string, ps: seq<Param>)
    requires GoodParams(ps) && Trimmed(head)
    ensures
      var s := PrintParams(b + head, ps);
      s != "" && !IsSpace(s[|s| - 1])
    decreases |ps|
  {
    if ps != [] {
      ParamText(ps[0]);
      ParamsEndTrimmed(ps[0].right, PrintParam(ps[0]), ps[1..]);
    }
  }

  lemma {:induction false} ParamsEnds(head: string, ps: seq<Param>)
    requires GoodParams(ps) && Trimmed(head)
    ensures
      var s := PrintParams(head, ps);
      s != "" && s[0] == head[0] && !IsSpace(s[|s| - 1])
    decreases |ps|
  {
    if ps != [] {
      ParamText(ps[0]);
      ParamsEndTrimmed(ps[0].right, PrintParam(ps[0]), ps[1..]);
    }
  }

  lemma BodyParsed(media: string, ps: seq<Param>, number: string -> Option<real>)
    requires GoodParams(ps) && Trimmed(media) && Without(media, {',', ';'})
    ensures CandidateOf(PrintParams(media, ps), number) == Candidate(Lower(media), AskedQuality(ps, number))
  {
    var parts := Parts(media, ps);
    ParamsSplit(media, ps);
    assert "" + media == media;
    forall i: nat | i <= |ps| ensures Strip(parts[i]) == if i == 0 then media else PrintParam(ps[i - 1]) {
      PartsTrimmed("", media, ps, i);
    }
    PartsQuality(parts[1..], ps, number);
  }

  /** An element has no comma, and is skipped or parsed for what it asks. */
  lemma ElementParsed(e: Element, number: string -> Option<real>)
    requires GoodElement(e)
    ensures Without(PrintElement(e), {','})
    ensures e.Nothing? <==> Strip(PrintElement(e)) == ""
    ensures e.Asks? ==>
      CandidateOf(Strip(PrintElement(e)), number) == Candidate(Lower(e.media), AskedQuality(e.params, number))
  {
    match e
    case Nothing(blanks) =>
      StripBlank(blanks);
      BlankWithout(blanks);
    case Asks(lead, media, params, trail) =>
      var s := PrintParams(media, params);
      ParamsEnds(media, params);
      StripBoth(lead, s, trail);
      ParamsSplit(media, params);
      BlankWithout(lead);
      BlankWithout(trail);
      WithoutConcat(s, trail, {','});
      WithoutConcat(lead, s + trail, {','});
      BodyParsed(media, params, number);
  }

  ghost predicate AllGood(es: seq<Element>) {
    forall i :: 0 <= i < |es| ==> GoodElement(es[i])
  }

  function Pieces(es: seq<Element>): (pieces: seq<string>)
    ensures |pieces| == |es| && forall i :: 0 <= i < |es| ==> pieces[i] == PrintElement(es[i])
  {
    if es == [] then [] else [PrintElement(es[0])] + Pieces(es[1..])
  }

  /** The pieces of a printed header are the printed elements. */
  lemma {:induction false} AcceptPieces(es: seq<Element>)
    requires es != [] && AllGood(es)
    ensures Split(PrintAccept(es), ',') == Pieces(es)
  {
    var first := PrintElement(es[0]);
    ElementParsed(es[0], _ => None);
    if |es| == 1 {
      IndexOfNone(first, ',');
    } else {
      AcceptPieces(es[1..]);
      SplitFirst(first, ',', PrintAccept(es[1..]));
    }
  }

  lemma {:induction false} PiecesParsed(es: seq<Element>, number: string -> Option<real>)
    requires AllGood(es)
    ensures Candidates(Pieces(es), number) == AllAsked(es, number)
  {
    if es != [] {
      var n := |es| - 1;
      PiecesParsed(es[..n], number);
      assert Pieces(es)[..n] == Pieces(es[..n]);
      ElementParsed(es[n], number);
    }
  }

  /**
   * Parsing a printed header gives back what its elements ask for, in order:
   * whatever the blanks, with or without a quality or other parameters, and
   * with empty elements between commas.
   */
  lemma ParsePrintedAccept(es: seq<Element>, number: string -> Option<real>)
    requires es != [] && AllGood(es)
    ensures Candidates(Split(PrintAccept(es), ','), number) == AllAsked(es, number)
  {
    AcceptPieces(es);
    PiecesParsed(es, number);
  }

  // ---------------------------------------------------------------------
  // The whole selection
  // ---------------------------------------------------------------------

  /**
   * r is the match of the earliest-listed candidate among those of greatest
   * quality that are positive and match a supported type; there is none
   * exactly when no candidate does.
   */
  ghost predicate Chosen(candidates: seq<Candidate>, supported: seq<string>, r: Option<string>) {
    && (r.None? <==> forall j :: 0 <= j < |candidates| ==> !Eligible(candidates[j], supported))
    && (r.Some? ==> exists i: nat :: Best(candidates, supported, i) && r == FirstMatch(candidates[i].media, supported))
  }

  /** The sort and the scan of `select_representation`. */
  method Choose(candidates: seq<Candidate>, supported: seq<string>) returns (r: Option<string>)
    requires supported != []
    ensures Chosen(candidates, supported, r)
  {
    var sorted := SortByQ(candidates);
    ghost var best := ScanFindsBest(candidates, supported);
    for k := 0 to |sorted|
      invariant FirstEligible(sorted, supported) == FirstEligible(sorted[k..], supported)
    {
      assert sorted[k..][1..] == sorted[k + 1..];
      if sorted[k].q > 0.0 {
        var m := Match(sorted[k].media, supported);
        if m.Some? {
          assert Best(candidates, supported, best);
          return m;
        }
      }
    }
    return None;
  }

  /** What the Accept header says: nothing if it is absent or blank. */
  function Offered(header: Option<string>, number: string -> Option<real>): seq<Candidate> {
    if header.None? || Strip(header.value) == "" then [] else Candidates(Split(header.value, ','), number)
  }

  lemma {:induction false} StrippedBlank(s: string)
    requires Strip(s) == ""
    ensures Blank(s)
    decreases |s|
  {
    if s != "" && IsSpace(s[0]) {
      StrippedBlank(s[1..]);
      assert forall i :: 1 <= i < |s| ==> s[i] == s[1..][i - 1];
    } else if s != "" && IsSpace(s[|s| - 1]) {
      StrippedBlank(s[..|s| - 1]);
    }
  }

  lemma {:induction false} BlankAsksNothing(es: seq<Element>, number: string -> Option<real>)
    requires AllGood(es) && forall i :: 0 <= i < |es| ==> es[i].Nothing?
    ensures AllAsked(es, number) == []
  {
    if es != [] {
      BlankAsksNothing(es[..|es| - 1], number);
    }
  }

  lemma CommaNotBlank(es: seq<Element>)
    requires es != []
    ensures Blank(PrintAccept(es)) ==> |es| == 1
  {
    if |es| > 1 {
      assert PrintAccept(es)[|PrintElement(es[0])|] == ',';
    }
  }

  lemma BlankHeaderElements(es: seq<Element>)
    requires es != [] && AllGood(es) && Blank(PrintAccept(es))
    ensures forall i :: 0 <= i < |es| ==> es[i].Nothing?
  {
    var first := PrintElement(es[0]);
    assert Blank(first) by {
      assert forall i :: 0 <= i < |first| ==> PrintAccept(es)[i] == first[i];
    }
    StripBlank(first);
    ElementParsed(es[0], _ => None);
    CommaNotBlank(es);
  }

  /**
   * The candidates `SelectRepresentation` chooses among are what the elements
   * of the header ask for.
   */
  lemma ElementsOffered(es: seq<Element>, number: string -> Option<real>)
    requires es != [] && AllGood(es)
    ensures Offered(Some(PrintAccept(es)), number) == AllAsked(es, number)
  {
    ParsePrintedAccept(es, number);
    if Strip(PrintAccept(es)) == "" {
      StrippedBlank(PrintAccept(es));
      BlankHeaderElements(es);
      BlankAsksNothing(es, number);
    }
  }

  /** A choice is made exactly if some candidate of positive quality matches a supported type. */
  lemma PositiveDecides(candidates: seq<Candidate>, supported: seq<string>, r: Option<string>)
    requires Chosen(candidates, supported, r)
    ensures r.Some? <==>
      exists i :: 0 <= i < |candidates| && candidates[i].q > 0.0 && FirstMatch(candidates[i].media, supported).Some?
  {
    if r.Some? {
      var i: nat :| Best(candidates, supported, i) && r == FirstMatch(candidates[i].media, supported);
      assert candidates[i].q > 0.0;
    }
  }

  lemma AllTypesOffered(number: string -> Option<real>)
    ensures Offered(Some("*/*"), number) == [Candidate("*/*", 1.0)]
  {
    var es := [Asks("", "*/*", [], "")];
    assert PrintAccept(es) == "*/*";
    ElementsOffered(es, number);
    assert Lower("*/*") == "*/*";
    assert es[..0] == [];
  }

  lemma AllTypesHeader(number: string -> Option<real>, supported: seq<string>, r: Option<string>)
    requires supported != [] && Chosen(Offered(Some("*/*"), number), supported, r)
    ensures r == Some(supported[0])
  {
    var c := Candidate("*/*", 1.0);
    AllTypesOffered(number);
    EveryType(supported);
    assert Eligible([c][0], supported);
  }

  /** `select_representation` */
  method SelectRepresentation(header: Option<string>, supported: seq<string>, number: string -> Option<real>)
    returns (r: Option<string>)
    requires supported != []
    ensures
      var candidates := Offered(header, number);
      if candidates == [] then r == Some(supported[0]) else Chosen(candidates, supported, r)
    ensures header == Some("*/*") ==> r == Some(supported[0])
  {
    if header.None? || Strip(header.value) == "" {
      return Some(supported[0]);
    }
    var candidates := ParseAccept(header.value, number);
    if candidates == [] {
      return Some(supported[0]);
    }
    r := Choose(candidates, supported);
    if header == Some("*/*") {
      AllTypesHeader(number, supported, r);
    }
  }
}
