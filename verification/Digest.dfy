/** What names an extractor: the bytes hashed into its id, and the canonical predicate set.
    Strings stand for their bytes; the hash itself is not part of this model. */
module Digest {
  import opened Model
  import Order
  import Sets

  const PROMPT_VERSION := 1
  const DEFAULT_MAX_ASSERTIONS := 16
  const DEFAULT_MAX_PROMPT_BYTES := 262144

  datatype Options = Options(
    instructions: string, predicates: seq<string>, maxAssertions: int, reconcile: bool, maxPromptBytes: int)

  datatype Field = Field(key: string, value: string)

  // ---- Numbers in decimal ---------------------------------------------------

  function Digit(d: nat): char
    requires d < 10
  {
    '0' + d as char
  }

  function Decimal(n: nat): (s: string)
    ensures s != ""
  {
    if n < 10 then [Digit(n)] else Decimal(n / 10) + [Digit(n % 10)]
  }

  predicate IsNumeral(s: string) { s != "" && forall i :: 0 <= i < |s| ==> '0' <= s[i] <= '9' }

  function Numeral(s: string): nat
    requires forall i :: 0 <= i < |s| ==> '0' <= s[i] <= '9'
  {
    if s == "" then 0 else 10 * Numeral(s[..|s| - 1]) + (s[|s| - 1] - '0') as nat
  }

  lemma {:induction false} DecimalReads(n: nat)
    ensures IsNumeral(Decimal(n)) && Numeral(Decimal(n)) == n
  {
    if n < 10 {
      assert Decimal(n)[..0] == "";
    } else {
      DecimalReads(n / 10);
      assert Decimal(n)[..|Decimal(n)| - 1] == Decimal(n / 10);
    }
  }

  // ---- Writing and reading fields -------------------------------------------

  function Written(f: Field): string { f.key + ":" + Decimal(|f.value|) + ":" + f.value + "\n" }

  function AllWritten(fields: seq<Field>): string {
    if fields == [] then "" else Written(fields[0]) + AllWritten(fields[1..])
  }

  function Find(s: string, c: char): (i: nat)
    ensures i <= |s| && (i < |s| ==> s[i] == c)
    ensures forall k :: 0 <= k < i ==> s[k] != c
  {
    if s == "" || s[0] == c then 0 else Find(s[1..], c) + 1
  }

  /** What stands before the first colon, and what after it. */
  function AtColon(s: string): (r: Option<(string, string)>)
    ensures r.Some? ==> |r.value.1| < |s|
  {
    var i := Find(s, ':');
    if i == |s| then None else Some((s[..i], s[i + 1..]))
  }

  lemma SplitsAtColon(a: string, b: string)
    requires ':' !in a
    ensures AtColon(a + ":" + b) == Some((a, b))
  {
    var s := a + ":" + b;
    assert s[|a|] == ':';
    assert forall k :: 0 <= k < |a| ==> s[k] == a[k] && a[k] != ':';
    assert s[..|a|] == a && s[|a| + 1..] == b;
  }

  /** A value of the announced length and its newline, and what is left. */
  function ReadValue(n: nat, body: string): Option<(string, string)> {
    if |body| <= n || body[n] != '\n' then None else Some((body[..n], body[n + 1..]))
  }

  lemma ReadsValue(v: string, tail: string)
    ensures ReadValue(|v|, v + "\n" + tail) == Some((v, tail))
  {
    var body := v + "\n" + tail;
    assert body[..|v|] == v && body[|v| + 1..] == tail;
  }

  /** One field off the front, by its length prefix, and what is left. */
  function ReadOne(s: string): (r: Option<(Field, string)>)
    ensures r.Some? ==> |r.value.1| < |s|
  {
    match AtColon(s)
    case None => None
    case Some((key, rest)) =>
      match AtColon(rest)
      case None => None
      case Some((len, body)) =>
        if !IsNumeral(len) then None
        else
          match ReadValue(Numeral(len), body)
          case None => None
          case Some((value, tail)) => Some((Field(key, value), tail))
  }

  function ReadAll(s: string): Option<seq<Field>>
    decreases |s|
  {
    if s == "" then Some([])
    else
      match ReadOne(s)
      case None => None
      case Some((f, rest)) =>
        match ReadAll(rest)
        case None => None
        case Some(fs) => Some([f] + fs)
  }

  lemma NumeralHasNoColon(s: string)
    requires IsNumeral(s)
    ensures ':' !in s
  {}

  lemma ReadsBack(f: Field, tail: string)
    requires ':' !in f.key
    ensures ReadOne(Written(f) + tail) == Some((f, tail))
  {
    var len := Decimal(|f.value|);
    DecimalReads(|f.value|);
    NumeralHasNoColon(len);
    var body := f.value + "\n" + tail;
    hide AtColon, ReadValue, Decimal, Numeral, IsNumeral;
    assert Written(f) + tail == f.key + ":" + (len + ":" + body);
    SplitsAtColon(f.key, len + ":" + body);
    SplitsAtColon(len, body);
    ReadsValue(f.value, tail);
  }

  lemma WrittenSplits(fields: seq<Field>)
    requires fields != []
    ensures AllWritten(fields) == Written(fields[0]) + AllWritten(fields[1..])
  {
    hide Written;
  }

  /** Whatever separators the values contain, the fields can be read back from the bytes. */
  lemma {:induction false} FieldsReadBack(fields: seq<Field>)
    requires forall f :: f in fields ==> ':' !in f.key
    ensures ReadAll(AllWritten(fields)) == Some(fields)
  {
    if fields != [] {
      hide ReadAll, ReadOne, Written, AllWritten;
      WrittenSplits(fields);
      FieldsReadBack(fields[1..]);
      OneThenRest(fields[0], AllWritten(fields[1..]), fields[1..]);
      assert fields == [fields[0]] + fields[1..];
    }
  }

  lemma OneThenRest(f: Field, rest: string, fs: seq<Field>)
    requires ':' !in f.key && ReadAll(rest) == Some(fs)
    ensures ReadAll(Written(f) + rest) == Some([f] + fs)
  {
    hide ReadOne, Written, AllWritten;
    ReadsBack(f, rest);
  }

  // ---- Canonical predicates -------------------------------------------------

  function Insert(sorted: seq<string>, p: string): seq<string> {
    if sorted == [] || Order.Leq(p, sorted[0]) then [p] + sorted else [sorted[0]] + Insert(sorted[1..], p)
  }

  function Sort(ps: seq<string>): seq<string> {
    if ps == [] then [] else Insert(Sort(ps[1..]), ps[0])
  }

  predicate Ascending(ps: seq<string>) { forall i, j :: 0 <= i < j < |ps| ==> Order.Leq(ps[i], ps[j]) }

  lemma {:induction false} InsertAscends(sorted: seq<string>, p: string)
    requires Ascending(sorted)
    ensures Ascending(Insert(sorted, p)) && forall x :: x in Insert(sorted, p) <==> x in sorted || x == p
  {
    if sorted != [] {
      Order.Total(p, sorted[0]);
      assert sorted == [sorted[0]] + sorted[1..];
      if Order.Leq(p, sorted[0]) {
        forall i | 0 <= i < |sorted| ensures Order.Leq(p, sorted[i]) {
          if i > 0 { Order.Transitive(p, sorted[0], sorted[i]); }
        }
      } else {
        InsertAscends(sorted[1..], p);
        var tail := Insert(sorted[1..], p);
        forall i | 0 <= i < |tail| ensures Order.Leq(sorted[0], tail[i]) {
          assert tail[i] in tail;
          if tail[i] != p { var k :| 0 <= k < |sorted[1..]| && sorted[1..][k] == tail[i]; assert sorted[k + 1] == tail[i]; }
        }
      }
    }
  }

  lemma {:induction false} SortAscends(ps: seq<string>)
    ensures Ascending(Sort(ps)) && forall x :: x in Sort(ps) <==> x in ps
  {
    if ps != [] {
      SortAscends(ps[1..]);
      InsertAscends(Sort(ps[1..]), ps[0]);
      assert ps == [ps[0]] + ps[1..];
    }
  }

  /** Drops each value equal to the one before it. */
  method Compact(ps: seq<string>) returns (out: seq<string>)
    requires Ascending(ps)
    ensures Ascending(out) && Sets.Distinct(out) && forall x :: x in out <==> x in ps
  {
    out := [];
    for i := 0 to |ps|
      invariant Ascending(out) && Sets.Distinct(out) && (out == [] <==> i == 0)
      invariant forall x :: x in out <==> x in ps[..i]
      invariant i > 0 ==> out[|out| - 1] == ps[i - 1]
    {
      assert ps[..i + 1] == ps[..i] + [ps[i]];
      if i == 0 || ps[i] != ps[i - 1] {
        forall k | 0 <= k < |out| ensures Order.Leq(out[k], ps[i]) && out[k] != ps[i] {
          assert out[k] in ps[..i];
          var l :| 0 <= l < i && ps[l] == out[k];
          Order.Total(ps[l], ps[l]);
          assert Order.Leq(ps[l], ps[i - 1]);
          Order.Total(ps[i - 1], ps[i]);
        }
        out := out + [ps[i]];
      }
    }
    assert ps[..|ps|] == ps;
  }

  /** A set has one ascending listing without repeats. */
  lemma {:induction false} ListingUnique(ps: seq<string>, s: set<string>)
    requires Ascending(ps) && Sets.Distinct(ps) && forall x :: x in ps <==> x in s
    ensures ps == Order.Sorted(s)
    decreases |ps|
  {
    if ps == [] {
      assert s == {};
    } else {
      assert ps[0] in s;
      Order.Total(ps[0], ps[0]);
      forall x | x in s ensures Order.Leq(ps[0], x) {
        var i :| 0 <= i < |ps| && ps[i] == x;
      }
      Order.LeastUnique(s, ps[0], Order.Least(s));
      assert ps == [ps[0]] + ps[1..];
      forall x ensures x in ps[1..] <==> x in s - {ps[0]} {
        if x in ps[1..] { var i :| 0 <= i < |ps[1..]| && ps[1..][i] == x; assert ps[i + 1] == x; }
      }
      ListingUnique(ps[1..], s - {ps[0]});
    }
  }

  /** Two spellings of one vocabulary come out the same. */
  method Canonical(predicates: seq<string>) returns (out: seq<string>)
    ensures out == Order.Sorted(set p | p in predicates)
  {
    SortAscends(predicates);
    out := Compact(Sort(predicates));
    ListingUnique(out, set p | p in predicates);
  }

  // ---- Configuring an extractor ---------------------------------------------

  function Cap(o: Options): int { if o.maxAssertions == 0 then DEFAULT_MAX_ASSERTIONS else o.maxAssertions }

  function Resolved(o: Options): Options {
    Options(o.instructions, Order.Sorted(set p | p in o.predicates), Cap(o), o.reconcile,
            if o.maxPromptBytes == 0 then DEFAULT_MAX_PROMPT_BYTES else o.maxPromptBytes)
  }

  /** `valid` says which predicates a fact can carry. */
  predicate Acceptable(o: Options, valid: string -> bool) {
    0 <= o.maxAssertions <= MAX_ASSERTIONS && 0 <= o.maxPromptBytes && forall p :: p in o.predicates ==> valid(p)
  }

  /** Defaults applied and the vocabulary made a set. */
  method Resolve(o: Options, valid: string -> bool) returns (r: Result<Options>)
    ensures r.Ok? <==> 0 <= o.maxAssertions <= 64 && 0 <= o.maxPromptBytes && forall p :: p in o.predicates ==> valid(p)
    ensures r.Err? ==> r.error == InvalidConfig
    ensures r.Ok? ==> r.value == Resolved(o)
    ensures r.Ok? ==> r.value == Options(o.instructions, Order.Sorted(set p | p in o.predicates), if o.maxAssertions == 0 then 16 else o.maxAssertions,
                                         o.reconcile, if o.maxPromptBytes == 0 then 262144 else o.maxPromptBytes)
  {
    if o.maxAssertions < 0 || o.maxAssertions > MAX_ASSERTIONS || o.maxPromptBytes < 0 { return Err(InvalidConfig); }
    var out := o;
    if out.maxAssertions == 0 { out := out.(maxAssertions := DEFAULT_MAX_ASSERTIONS); }
    if out.maxPromptBytes == 0 { out := out.(maxPromptBytes := DEFAULT_MAX_PROMPT_BYTES); }
    assert out.(predicates := Resolved(o).predicates) == Resolved(o);
    hide Order.Sorted, Resolved, SameMembers, Acceptable;
    var predicates := Canonical(o.predicates);
    SortedMembers(o.predicates, predicates);
    var carried := AllCarried(predicates, valid);
    CarriedMeans(o, valid, predicates);
    if !carried { return Err(InvalidConfig); }
    r := Ok(out.(predicates := predicates));
  }

  method AllCarried(predicates: seq<string>, valid: string -> bool) returns (ok: bool)
    ensures ok <==> forall k :: 0 <= k < |predicates| ==> valid(predicates[k])
  {
    for i := 0 to |predicates|
      invariant forall k :: 0 <= k < i ==> valid(predicates[k])
    {
      if !valid(predicates[i]) { return false; }
    }
    return true;
  }

  lemma CarriedMeans(o: Options, valid: string -> bool, predicates: seq<string>)
    requires SameMembers(predicates, o.predicates) && 0 <= o.maxAssertions <= MAX_ASSERTIONS && 0 <= o.maxPromptBytes
    ensures Acceptable(o, valid) <==> forall k :: 0 <= k < |predicates| ==> valid(predicates[k])
  {
    forall k | 0 <= k < |predicates| ensures predicates[k] in o.predicates {}
    forall p | p in o.predicates ensures exists k :: 0 <= k < |predicates| && predicates[k] == p {}
  }

  ghost predicate SameMembers(a: seq<string>, b: seq<string>) { forall p :: p in a <==> p in b }

  lemma SortedMembers(listed: seq<string>, sorted: seq<string>)
    requires sorted == Order.Sorted(set p | p in listed)
    ensures SameMembers(sorted, listed)
  {
    hide Order.Leq;
  }

  function Vocabulary(ps: seq<string>): seq<Field> {
    seq(|ps|, i requires 0 <= i < |ps| => Field("predicate", ps[i]))
  }

  function Fields(o: Options): seq<Field>
    requires o.maxAssertions >= 0
  {
    [Field("prompt", Decimal(PROMPT_VERSION)), Field("instructions", o.instructions),
     Field("assertions", Decimal(o.maxAssertions)), Field("reconcile", if o.reconcile then "true" else "false")]
    + Vocabulary(o.predicates)
  }

  /** The bytes fed to the hash, written field by field. */
  method DigestInput(o: Options) returns (h: string)
    requires o.maxAssertions >= 0
    ensures h == AllWritten(Fields(o))
  {
    hide Written, AllWritten, Decimal;
    ghost var fields := Fields(o);
    h := Written(Field("prompt", Decimal(PROMPT_VERSION)));
    h := h + Written(Field("instructions", o.instructions));
    h := h + Written(Field("assertions", Decimal(o.maxAssertions)));
    h := h + Written(Field("reconcile", if o.reconcile then "true" else "false"));
    WrittenPrefix(fields, 0);
    WrittenPrefix(fields, 1);
    WrittenPrefix(fields, 2);
    WrittenPrefix(fields, 3);
    for i := 0 to |o.predicates|
      invariant h == AllWritten(fields[..i + 4])
    {
      WrittenPrefix(fields, i + 4);
      h := h + Written(Field("predicate", o.predicates[i]));
    }
    assert fields[..|fields|] == fields;
  }

  lemma {:induction false} WrittenPrefix(fields: seq<Field>, n: nat)
    requires n < |fields|
    ensures AllWritten(fields[..n + 1]) == AllWritten(fields[..n]) + Written(fields[n])
    ensures AllWritten(fields[..0]) == ""
  {
    if n == 0 {
      assert fields[..1][1..] == [];
    } else {
      WrittenPrefix(fields[1..], n - 1);
      assert fields[..n + 1][1..] == fields[1..][..n] && fields[..n][1..] == fields[1..][..n - 1];
    }
  }

  lemma SmallDecimals()
    ensures Decimal(1) == "1" && Decimal(4) == "4" && Decimal(5) == "5"
  {}

  lemma OneMoreWritten(f: Field, rest: seq<Field>)
    ensures AllWritten([f] + rest) == f.key + ":" + Decimal(|f.value|) + ":" + f.value + "\n" + AllWritten(rest)
  {
    assert ([f] + rest)[1..] == rest;
    hide Decimal;
  }

  /** The bytes spelled out: the version of the prompt, the instructions, the cap and the flag, and
      then the predicates one by one, every value behind its length. */
  lemma InputSpelled(o: Options)
    requires o.maxAssertions >= 0
    ensures AllWritten(Fields(o)) ==
      "prompt" + ":" + "1" + ":" + "1" + "\n" + (
      "instructions" + ":" + Decimal(|o.instructions|) + ":" + o.instructions + "\n" + (
      "assertions" + ":" + Decimal(|Decimal(o.maxAssertions)|) + ":" + Decimal(o.maxAssertions) + "\n" + (
      "reconcile" + ":" + (if o.reconcile then "4" else "5") + ":" + (if o.reconcile then "true" else "false") + "\n" +
      AllWritten(Vocabulary(o.predicates)))))
  {
    SmallDecimals();
    var (prompt, instructions, cap) := (Field("prompt", "1"), Field("instructions", o.instructions), Field("assertions", Decimal(o.maxAssertions)));
    var (flag, names) := (Field("reconcile", if o.reconcile then "true" else "false"), Vocabulary(o.predicates));
    assert Fields(o) == [prompt] + ([instructions] + ([cap] + ([flag] + names)));
    hide Decimal, AllWritten, Fields, Vocabulary;
    OneMoreWritten(prompt, [instructions] + ([cap] + ([flag] + names)));
    OneMoreWritten(instructions, [cap] + ([flag] + names));
    OneMoreWritten(cap, [flag] + names);
    OneMoreWritten(flag, names);
  }

  lemma PredicatesSpelled(ps: seq<string>)
    requires ps != []
    ensures AllWritten(Vocabulary(ps)) == "predicate" + ":" + Decimal(|ps[0]|) + ":" + ps[0] + "\n" + AllWritten(Vocabulary(ps[1..]))
  {
    assert Vocabulary(ps) == [Field("predicate", ps[0])] + Vocabulary(ps[1..]);
    OneMoreWritten(Field("predicate", ps[0]), Vocabulary(ps[1..]));
    hide Decimal, AllWritten;
  }

  lemma PlainKeys(o: Options)
    requires o.maxAssertions >= 0
    ensures forall f :: f in Fields(o) ==> ':' !in f.key
  {}

  lemma FieldsSame(a: Options, b: Options)
    requires a.maxAssertions >= 0 && b.maxAssertions >= 0
    ensures Fields(a) == Fields(b) <==>
      a.instructions == b.instructions && a.maxAssertions == b.maxAssertions && a.reconcile == b.reconcile && a.predicates == b.predicates
  {
    DecimalReads(a.maxAssertions);
    DecimalReads(b.maxAssertions);
    if Fields(a) == Fields(b) {
      assert Fields(a)[1] == Fields(b)[1] && Fields(a)[2] == Fields(b)[2] && Fields(a)[3] == Fields(b)[3];
      assert |a.predicates| == |b.predicates|;
      forall i | 0 <= i < |a.predicates| ensures a.predicates[i] == b.predicates[i] { assert Fields(a)[i + 4] == Fields(b)[i + 4]; }
    }
  }

  /** Two resolved configurations feed the hash the same bytes exactly when they ask the model
      the same thing: no value, whatever it contains, can pass for another configuration. */
  lemma SameBytesIffSame(a: Options, b: Options)
    requires a.maxAssertions >= 0 && b.maxAssertions >= 0
    ensures AllWritten(Fields(a)) == AllWritten(Fields(b)) <==>
      a.instructions == b.instructions && a.maxAssertions == b.maxAssertions && a.reconcile == b.reconcile && a.predicates == b.predicates
  {
    PlainKeys(a);
    PlainKeys(b);
    hide Fields, AllWritten, ReadAll;
    FieldsReadBack(Fields(a));
    FieldsReadBack(Fields(b));
    FieldsSame(a, b);
  }

  /** In terms of what the caller passed: the predicates count as a set, and the cap after its
      default; the prompt budget does not count. */
  lemma SameIdentity(a: Options, b: Options)
    requires a.maxAssertions >= 0 && b.maxAssertions >= 0
    ensures AllWritten(Fields(Resolved(a))) == AllWritten(Fields(Resolved(b))) <==>
      && a.instructions == b.instructions && a.reconcile == b.reconcile
      && (if a.maxAssertions == 0 then 16 else a.maxAssertions) == (if b.maxAssertions == 0 then 16 else b.maxAssertions)
      && forall p :: p in a.predicates <==> p in b.predicates
  {
    SameBytesIffSame(Resolved(a), Resolved(b));
    var (s, t) := (set p | p in a.predicates, set p | p in b.predicates);
    forall p ensures p in Order.Sorted(s) <==> p in a.predicates {}
    forall p ensures p in Order.Sorted(t) <==> p in b.predicates {}
    if forall p :: p in a.predicates <==> p in b.predicates { assert s == t; }
  }
}
