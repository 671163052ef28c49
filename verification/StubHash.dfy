/** Function stubs (src/override.c): which function replaces a called one is cached in a hash
    table with linear probing. Within one test the cache cannot be noticed. */
module StubHash {
  import opened Wrappers

  const MAX_OVERRIDES: nat := 16384
  const HASH_SIZE: nat := 32768

  /** A stub for the function `name`; replacement 0 is the original again. */
  datatype Override = Override(name: string, repl: nat)

  datatype Entry = Entry(orig: nat, repl: nat)

  /** What does not change during a test: the name of the function at an address, whether
      it belongs to the test code, whether the test may call it unstubbed (it is a flow
      test, or the function is from a header or a tested file), and the hash. */
  datatype Test = Test(name: nat -> string, text: nat -> bool, permitted: nat -> bool, hash: nat -> nat)

  ghost predicate Proper(t: Test) { forall p :: t.hash(p) < HASH_SIZE }

  /** The address that is returned for a function without a stub: behind the call. */
  function Resume(orig: nat): nat { orig + 5 }

  /** Position of the override for `name`; their number if there is none. */
  function Find(ov: seq<Override>, name: string): (i: nat)
    ensures i <= |ov| && (i < |ov| ==> ov[i].name == name)
    ensures forall k :: 0 <= k < i ==> ov[k].name != name
  {
    if ov == [] || ov[0].name == name then 0 else 1 + Find(ov[1..], name)
  }

  /** The search of usfstl_find_repl without the hash table; `Aborted` is an invalid call. */
  function Uncached(t: Test, ov: seq<Override>, orig: nat, recurse: bool): Outcome<nat> {
    var i := Find(ov, t.name(orig));
    if i < |ov| then Ok(ov[i].repl)
    else if t.text(orig) || recurse || t.permitted(orig) then Ok(Resume(orig))
    else Aborted
  }

  /** Results are stored except when they hold only because of the recursion flag. */
  predicate Stored(t: Test, ov: seq<Override>, orig: nat, recurse: bool) {
    Find(ov, t.name(orig)) < |ov| || t.text(orig) || (!recurse && t.permitted(orig))
  }

  // ------------------------------------------------------------ probing

  /** First slot from `i` on that is empty or holds `orig`; the table size if there is none. */
  function Probe(table: seq<Option<Entry>>, i: nat, orig: nat): (k: nat)
    requires i <= |table|
    ensures i <= k <= |table|
    ensures forall j :: i <= j < k ==> table[j].Some? && table[j].value.orig != orig
    ensures k < |table| ==> table[k].None? || table[k].value.orig == orig
    decreases |table| - i
  {
    if i == |table| || table[i].None? || table[i].value.orig == orig then i else Probe(table, i + 1, orig)
  }

  function FirstEmpty(table: seq<Option<Entry>>, i: nat): (k: nat)
    requires i <= |table|
    ensures i <= k <= |table| && (forall j :: i <= j < k ==> table[j].Some?) && (k < |table| ==> table[k].None?)
    decreases |table| - i
  {
    if i == |table| || table[i].None? then i else FirstEmpty(table, i + 1)
  }

  function Store(table: seq<Option<Entry>>, i: nat, e: Entry): seq<Option<Entry>>
    requires i <= |table|
  {
    var k := FirstEmpty(table, i);
    if k < |table| then table[k := Some(e)] else table
  }

  datatype State = State(table: seq<Option<Entry>>, overrides: seq<Override>)

  /** usfstl_find_repl. */
  ghost function Lookup(t: Test, s: State, orig: nat, recurse: bool): (Outcome<nat>, State)
    requires Proper(t) && |s.table| == HASH_SIZE
  {
    var h := t.hash(orig);
    var k := Probe(s.table, h, orig);
    if k < HASH_SIZE && s.table[k].Some? then (Ok(s.table[k].value.repl), s)
    else
      var r := Uncached(t, s.overrides, orig, recurse);
      if r.Ok? && Stored(t, s.overrides, orig, recurse) then (r, s.(table := Store(s.table, h, Entry(orig, r.s))))
      else (r, s)
  }

  function Empty(): seq<Option<Entry>> { seq(HASH_SIZE, i => None) }

  /** The overrides after usfstl_install_stub; `Aborted` if there are too many. */
  function Overridden(ov: seq<Override>, name: string, repl: nat): Outcome<seq<Override>> {
    var i := Find(ov, name);
    if i < |ov| then Ok(ov[i := ov[i].(repl := repl)])
    else if |ov| == MAX_OVERRIDES then Aborted
    else Ok(ov + [Override(name, repl)])
  }

  // ------------------------------------------------------------ invariant

  /** Every slot between an entry and its hash is in use, and no function is stored twice. */
  ghost predicate NoGaps(t: Test, table: seq<Option<Entry>>) {
    && (forall i :: 0 <= i < |table| && table[i].Some? ==> t.hash(table[i].value.orig) <= i)
    && (forall i, j :: 0 <= i < |table| && table[i].Some? && t.hash(table[i].value.orig) <= j <= i ==> table[j].Some?)
    && (forall i, j :: 0 <= i < j < |table| && table[i].Some? && table[j].Some? ==> table[i].value.orig != table[j].value.orig)
  }

  /** Every entry holds what the search would find, whatever the recursion flag. */
  ghost predicate Right(t: Test, table: seq<Option<Entry>>, ov: seq<Override>) {
    forall i, recurse :: 0 <= i < |table| && table[i].Some? ==>
      Uncached(t, ov, table[i].value.orig, recurse) == Ok(table[i].value.repl)
  }

  ghost predicate UniqueNames(ov: seq<Override>) {
    |ov| <= MAX_OVERRIDES && forall i, j :: 0 <= i < j < |ov| ==> ov[i].name != ov[j].name
  }

  ghost predicate Inv(t: Test, s: State) {
    |s.table| == HASH_SIZE && NoGaps(t, s.table) && Right(t, s.table, s.overrides) && UniqueNames(s.overrides)
  }

  /** Without gaps the probe finds every stored function. */
  lemma ProbeFinds(t: Test, table: seq<Option<Entry>>, orig: nat, i: nat)
    requires Proper(t) && |table| == HASH_SIZE && NoGaps(t, table)
    requires i < |table| && table[i].Some? && table[i].value.orig == orig
    ensures Probe(table, t.hash(orig), orig) == i
  {
    var k := Probe(table, t.hash(orig), orig);
    assert k <= i;
  }

  lemma StoreKeeps(t: Test, table: seq<Option<Entry>>, e: Entry)
    requires Proper(t) && |table| == HASH_SIZE && NoGaps(t, table)
    requires forall i :: 0 <= i < |table| && table[i].Some? ==> table[i].value.orig != e.orig
    ensures NoGaps(t, Store(table, t.hash(e.orig), e))
  {
  }

  lemma StoredIsRight(t: Test, ov: seq<Override>, orig: nat, recurse: bool, later: bool)
    requires Stored(t, ov, orig, recurse) && Uncached(t, ov, orig, recurse).Ok?
    ensures Uncached(t, ov, orig, later) == Uncached(t, ov, orig, recurse)
  {
  }

  /** A cached lookup gives what the search would give, and keeps the table right. */
  lemma LookupTransparent(t: Test, s: State, orig: nat, recurse: bool)
    requires Proper(t) && Inv(t, s)
    ensures var r := Lookup(t, s, orig, recurse);
            r.0 == Uncached(t, s.overrides, orig, recurse) && Inv(t, r.1) && r.1.overrides == s.overrides
  {
    var h := t.hash(orig);
    var k := Probe(s.table, h, orig);
    if k < HASH_SIZE && s.table[k].Some? {
      assert Uncached(t, s.overrides, s.table[k].value.orig, recurse) == Ok(s.table[k].value.repl);
    } else {
      NotStored(t, s.table, orig);
      var r := Uncached(t, s.overrides, orig, recurse);
      if r.Ok? && Stored(t, s.overrides, orig, recurse) {
        StoreKeeps(t, s.table, Entry(orig, r.s));
        StoreRight(t, s.table, s.overrides, Entry(orig, r.s), recurse);
      }
    }
  }

  lemma NotStored(t: Test, table: seq<Option<Entry>>, orig: nat)
    requires Proper(t) && |table| == HASH_SIZE && NoGaps(t, table)
    requires var k := Probe(table, t.hash(orig), orig); k == HASH_SIZE || table[k].None?
    ensures forall i :: 0 <= i < |table| && table[i].Some? ==> table[i].value.orig != orig
  {
    forall i | 0 <= i < |table| && table[i].Some? ensures table[i].value.orig != orig {
      if table[i].value.orig == orig {
        ProbeFinds(t, table, orig, i);
      }
    }
  }

  lemma StoreRight(t: Test, table: seq<Option<Entry>>, ov: seq<Override>, e: Entry, recurse: bool)
    requires Proper(t) && |table| == HASH_SIZE && Right(t, table, ov)
    requires Uncached(t, ov, e.orig, recurse) == Ok(e.repl) && Stored(t, ov, e.orig, recurse)
    ensures Right(t, Store(table, t.hash(e.orig), e), ov)
  {
    forall later: bool ensures Uncached(t, ov, e.orig, later) == Ok(e.repl) {
      StoredIsRight(t, ov, e.orig, recurse, later);
    }
  }

  /** Installing a stub changes the answer for its name and for no other, and names stay
      unique. */
  lemma InstallEffect(ov: seq<Override>, name: string, repl: nat, other: string)
    requires UniqueNames(ov) && Overridden(ov, name, repl).Ok?
    ensures var w := Overridden(ov, name, repl).s;
            && UniqueNames(w)
            && Find(w, name) < |w| && w[Find(w, name)].repl == repl
            && (other != name ==> (Find(w, other) < |w| <==> Find(ov, other) < |ov|) &&
                                  (Find(ov, other) < |ov| ==> Find(w, other) < |w| && w[Find(w, other)] == ov[Find(ov, other)]))
  {
    var w := Overridden(ov, name, repl).s;
    FindIs(w, name, Find(ov, name));
    if other != name {
      var j := Find(ov, other);
      if j < |ov| {
        FindIs(w, other, j);
      } else {
        assert forall k :: 0 <= k < |w| ==> w[k].name != other;
      }
    }
  }

  lemma FindIs(ov: seq<Override>, name: string, i: nat)
    requires i < |ov| && ov[i].name == name && forall k :: 0 <= k < i ==> ov[k].name != name
    ensures Find(ov, name) == i
  {
    var j := Find(ov, name);
    assert ov[i].name == name;
  }

  // ------------------------------------------------------------ runs

  datatype Call = Install(name: string, repl: nat) | FindRepl(orig: nat, recurse: bool)

  /** Installing always empties the table. */
  ghost function Step(t: Test, s: State, c: Call): Outcome<(Option<Outcome<nat>>, State)>
    requires Proper(t) && |s.table| == HASH_SIZE
  {
    match c
    case Install(name, repl) =>
      var w := Overridden(s.overrides, name, repl);
      if w.Aborted? then Aborted else Ok((None, State(Empty(), w.s)))
    case FindRepl(orig, recurse) => var r := Lookup(t, s, orig, recurse); Ok((Some(r.0), r.1))
  }

  /** The same without a table. */
  function PlainStep(t: Test, ov: seq<Override>, c: Call): Outcome<(Option<Outcome<nat>>, seq<Override>)> {
    match c
    case Install(name, repl) =>
      var w := Overridden(ov, name, repl);
      if w.Aborted? then Aborted else Ok((None, w.s))
    case FindRepl(orig, recurse) => Ok((Some(Uncached(t, ov, orig, recurse)), ov))
  }

  /** The answers of a sequence of calls, up to the one that ends the program. */
  ghost function Answers(t: Test, s: State, calls: seq<Call>): seq<Option<Outcome<nat>>>
    requires Proper(t) && Inv(t, s)
    decreases |calls|
  {
    if calls == [] then []
    else
      var r := Step(t, s, calls[0]);
      if r.Aborted? then [] else StepKeeps(t, s, calls[0]); [r.s.0] + Answers(t, r.s.1, calls[1..])
  }

  ghost function PlainAnswers(t: Test, ov: seq<Override>, calls: seq<Call>): seq<Option<Outcome<nat>>>
    decreases |calls|
  {
    if calls == [] then []
    else
      var r := PlainStep(t, ov, calls[0]);
      if r.Aborted? then [] else [r.s.0] + PlainAnswers(t, r.s.1, calls[1..])
  }

  lemma StepKeeps(t: Test, s: State, c: Call)
    requires Proper(t) && Inv(t, s)
    ensures var r, p := Step(t, s, c), PlainStep(t, s.overrides, c);
            if p.Aborted? then r.Aborted? else r.Ok? && r.s.0 == p.s.0 && r.s.1.overrides == p.s.1 && Inv(t, r.s.1)
  {
    match c
    case Install(name, repl) =>
      if Overridden(s.overrides, name, repl).Ok? {
        InstallEffect(s.overrides, name, repl, name);
      }
    case FindRepl(orig, recurse) => LookupTransparent(t, s, orig, recurse);
  }

  /** For every sequence of installs and lookups in one test, the answers with the hash table
      are those without it. */
  lemma {:induction false} CacheIsTransparent(t: Test, s: State, calls: seq<Call>)
    requires Proper(t) && Inv(t, s)
    ensures Answers(t, s, calls) == PlainAnswers(t, s.overrides, calls)
    decreases |calls|
  {
    if calls != [] {
      StepKeeps(t, s, calls[0]);
      var r := Step(t, s, calls[0]);
      if r.Ok? {
        CacheIsTransparent(t, r.s.1, calls[1..]);
      }
    }
  }

  // ------------------------------------------------------------ what stubs mean

  /** The replacement last installed for each name. */
  ghost function Stubbed(ov: seq<Override>): map<string, nat> {
    if ov == [] then map[] else Stubbed(ov[..|ov| - 1])[ov[|ov| - 1].name := ov[|ov| - 1].repl]
  }

  lemma {:induction false} StubbedAt(ov: seq<Override>, i: nat)
    requires UniqueNames(ov) && i < |ov|
    ensures ov[i].name in Stubbed(ov) && Stubbed(ov)[ov[i].name] == ov[i].repl
  {
    if i < |ov| - 1 {
      StubbedAt(ov[..|ov| - 1], i);
    }
  }

  lemma {:induction false} StubbedNames(ov: seq<Override>, name: string)
    ensures name in Stubbed(ov) <==> exists i :: 0 <= i < |ov| && ov[i].name == name
  {
    if ov != [] {
      var rest := ov[..|ov| - 1];
      StubbedNames(rest, name);
      if i :| 0 <= i < |ov| && ov[i].name == name {
        assert i < |rest| ==> rest[i].name == name;
      }
    }
  }

  lemma {:induction false} StubbedCount(ov: seq<Override>)
    requires UniqueNames(ov)
    ensures |Stubbed(ov)| == |ov|
  {
    if ov != [] {
      var rest := ov[..|ov| - 1];
      StubbedCount(rest);
      StubbedNames(rest, ov[|ov| - 1].name);
      assert Stubbed(ov).Keys == Stubbed(rest).Keys + {ov[|ov| - 1].name};
    }
  }

  /** What usfstl_find_repl has to answer: the replacement; otherwise to go on behind the call
      if the test may call the function; otherwise the call is invalid. */
  ghost function Answer(t: Test, stubs: map<string, nat>, orig: nat, recurse: bool): Outcome<nat> {
    if t.name(orig) in stubs then Ok(stubs[t.name(orig)])
    else if t.text(orig) || recurse || t.permitted(orig) then Ok(orig + 5)
    else Aborted
  }

  lemma UncachedIsAnswer(t: Test, ov: seq<Override>, orig: nat, recurse: bool)
    requires UniqueNames(ov)
    ensures Uncached(t, ov, orig, recurse) == Answer(t, Stubbed(ov), orig, recurse)
  {
    var i := Find(ov, t.name(orig));
    StubbedNames(ov, t.name(orig));
    if i < |ov| {
      StubbedAt(ov, i);
    }
  }

  /** Installing a stub is refused exactly if it is a new one too many, and changes only what
      is installed for its name. */
  lemma InstallIs(ov: seq<Override>, name: string, repl: nat)
    requires UniqueNames(ov)
    ensures Overridden(ov, name, repl).Aborted? <==> name !in Stubbed(ov) && |Stubbed(ov)| == MAX_OVERRIDES
    ensures Overridden(ov, name, repl).Ok? ==>
              UniqueNames(Overridden(ov, name, repl).s) && Stubbed(Overridden(ov, name, repl).s) == Stubbed(ov)[name := repl]
  {
    StubbedCount(ov);
    StubbedNames(ov, name);
    if Overridden(ov, name, repl).Ok? {
      InstallEffect(ov, name, repl, name);
      var w := Overridden(ov, name, repl).s;
      forall n ensures n in Stubbed(w) <==> n in Stubbed(ov)[name := repl] {
        SameName(ov, name, repl, n);
      }
      forall n | n in Stubbed(w) ensures Stubbed(w)[n] == Stubbed(ov)[name := repl][n] {
        SameName(ov, name, repl, n);
      }
    }
  }

  lemma FindStubbed(ov: seq<Override>, name: string)
    requires UniqueNames(ov)
    ensures if Find(ov, name) < |ov| then name in Stubbed(ov) && Stubbed(ov)[name] == ov[Find(ov, name)].repl else name !in Stubbed(ov)
  {
    StubbedNames(ov, name);
    if Find(ov, name) < |ov| {
      StubbedAt(ov, Find(ov, name));
    }
  }

  lemma SameName(ov: seq<Override>, name: string, repl: nat, n: string)
    requires UniqueNames(ov) && Overridden(ov, name, repl).Ok?
    ensures var w, m := Stubbed(Overridden(ov, name, repl).s), Stubbed(ov)[name := repl];
            (n in w <==> n in m) && (n in w ==> w[n] == m[n])
  {
    InstallEffect(ov, name, repl, n);
    FindStubbed(ov, n);
    FindStubbed(Overridden(ov, name, repl).s, n);
  }

  /** The answers as they should be, with only the stubs installed so far. */
  ghost function RightAnswers(t: Test, stubs: map<string, nat>, calls: seq<Call>): seq<Option<Outcome<nat>>>
    decreases |calls|
  {
    if calls == [] then []
    else match calls[0]
      case Install(name, repl) =>
        if name !in stubs && |stubs| == MAX_OVERRIDES then [] else [None] + RightAnswers(t, stubs[name := repl], calls[1..])
      case FindRepl(orig, recurse) => [Some(Answer(t, stubs, orig, recurse))] + RightAnswers(t, stubs, calls[1..])
  }

  lemma {:induction false} PlainIsRight(t: Test, ov: seq<Override>, calls: seq<Call>)
    requires UniqueNames(ov)
    ensures PlainAnswers(t, ov, calls) == RightAnswers(t, Stubbed(ov), calls)
    decreases |calls|
  {
    if calls != [] {
      match calls[0]
      case Install(name, repl) =>
        InstallIs(ov, name, repl);
        if Overridden(ov, name, repl).Ok? {
          PlainIsRight(t, Overridden(ov, name, repl).s, calls[1..]);
        }
      case FindRepl(orig, recurse) =>
        UncachedIsAnswer(t, ov, orig, recurse);
        PlainIsRight(t, ov, calls[1..]);
    }
  }

  /** For every sequence of installs and lookups, every answer is the replacement last installed
      for the function's name, or what a function without a stub gets. */
  lemma AnswersAreRight(t: Test, s: State, calls: seq<Call>)
    requires Proper(t) && Inv(t, s)
    ensures Answers(t, s, calls) == RightAnswers(t, Stubbed(s.overrides), calls)
  {
    CacheIsTransparent(t, s, calls);
    PlainIsRight(t, s.overrides, calls);
  }

  lemma {:induction false} StaysRight(t: Test, stubs: map<string, nat>, name: string, repl: nat, calls: seq<Call>, i: nat)
    requires name in stubs && stubs[name] == repl && (forall c :: c in calls && c.Install? ==> c.name != name)
    requires i < |calls| && calls[i].FindRepl? && t.name(calls[i].orig) == name && i < |RightAnswers(t, stubs, calls)|
    ensures RightAnswers(t, stubs, calls)[i] == Some(Ok(repl))
    decreases |calls|
  {
    if i > 0 {
      assert calls[0] in calls;
      match calls[0]
      case Install(other, r) => StaysRight(t, stubs[other := r], name, repl, calls[1..], i - 1);
      case FindRepl(_, _) => StaysRight(t, stubs, name, repl, calls[1..], i - 1);
    }
  }

  /** After a stub is installed, and as long as none is installed for the same name, every
      lookup of a function of that name gives it, whatever is in the cache; unless the test
      was stopped before, by one stub too many. */
  lemma InstalledIsFound(t: Test, s: State, name: string, repl: nat, calls: seq<Call>, i: nat)
    requires Proper(t) && Inv(t, s) && (forall c :: c in calls && c.Install? ==> c.name != name)
    requires i < |calls| && calls[i].FindRepl? && t.name(calls[i].orig) == name
    ensures var answers := Answers(t, s, [Install(name, repl)] + calls);
            i + 1 < |answers| ==> answers[i + 1] == Some(Ok(repl))
  {
    var all := [Install(name, repl)] + calls;
    var stubs := Stubbed(s.overrides);
    AnswersAreRight(t, s, all);
    assert all[1..] == calls;
    if i + 1 < |RightAnswers(t, stubs, all)| {
      StaysRight(t, stubs[name := repl], name, repl, calls, i);
    }
  }

  /** A result that cannot change during the test is found in the table afterwards, if the table
      has room behind its hash. */
  lemma LookupStores(t: Test, s: State, orig: nat, recurse: bool)
    requires Proper(t) && Inv(t, s) && FirstEmpty(s.table, t.hash(orig)) < HASH_SIZE
    requires t.name(orig) in Stubbed(s.overrides) || t.text(orig) || (!recurse && t.permitted(orig))
    ensures var z := Lookup(t, s, orig, recurse).1;
            |z.table| == HASH_SIZE && var k := Probe(z.table, t.hash(orig), orig);
            k < HASH_SIZE && z.table[k].Some? && z.table[k].value.orig == orig
  {
    var k := Probe(s.table, t.hash(orig), orig);
    if k == HASH_SIZE || s.table[k].None? {
      NotStored(t, s.table, orig);
      MissStores(t, s, orig, recurse);
    }
  }

  lemma MissStores(t: Test, s: State, orig: nat, recurse: bool)
    requires Proper(t) && Inv(t, s) && FirstEmpty(s.table, t.hash(orig)) < HASH_SIZE
    requires t.name(orig) in Stubbed(s.overrides) || t.text(orig) || (!recurse && t.permitted(orig))
    requires var k := Probe(s.table, t.hash(orig), orig); k == HASH_SIZE || s.table[k].None?
    requires forall i :: 0 <= i < |s.table| && s.table[i].Some? ==> s.table[i].value.orig != orig
    ensures var z := Lookup(t, s, orig, recurse).1;
            |z.table| == HASH_SIZE && var k := Probe(z.table, t.hash(orig), orig);
            k < HASH_SIZE && z.table[k].Some? && z.table[k].value.orig == orig
  {
    MissLookup(t, s, orig, recurse);
    StoreFinds(t, s.table, Entry(orig, Uncached(t, s.overrides, orig, recurse).s));
  }

  lemma MissLookup(t: Test, s: State, orig: nat, recurse: bool)
    requires Proper(t) && |s.table| == HASH_SIZE && UniqueNames(s.overrides)
    requires t.name(orig) in Stubbed(s.overrides) || t.text(orig) || (!recurse && t.permitted(orig))
    requires var k := Probe(s.table, t.hash(orig), orig); k == HASH_SIZE || s.table[k].None?
    ensures var r := Uncached(t, s.overrides, orig, recurse);
            r.Ok? && Lookup(t, s, orig, recurse).1.table == Store(s.table, t.hash(orig), Entry(orig, r.s))
  {
    FindStubbed(s.overrides, t.name(orig));
  }

  lemma StoreFinds(t: Test, table: seq<Option<Entry>>, e: Entry)
    requires Proper(t) && |table| == HASH_SIZE && NoGaps(t, table) && FirstEmpty(table, t.hash(e.orig)) < HASH_SIZE
    requires forall i :: 0 <= i < |table| && table[i].Some? ==> table[i].value.orig != e.orig
    ensures var r := Store(table, t.hash(e.orig), e);
            var k := Probe(r, t.hash(e.orig), e.orig);
            k < HASH_SIZE && r[k] == Some(e)
  {
    StoreKeeps(t, table, e);
    ProbeFinds(t, Store(table, t.hash(e.orig), e), e.orig, FirstEmpty(table, t.hash(e.orig)));
  }

  // ------------------------------------------------------------ the code

  /** The types of a function as DWARF writes them. */
  datatype Signature = Signature(ret: string, args: string)

  /** A function may be replaced by one of the same return type and, if asked for, the same
      arguments; the void stub has no arguments to compare. `repl` is 0 for the original. */
  ghost predicate Compatible(repl: nat, orig: Signature, stub: Signature, voidStub: bool, checkArgs: bool) {
    repl != 0 ==>
      && orig.ret == (if voidStub then "void" else stub.ret)
      && (checkArgs ==> !voidStub && orig.args == stub.args)
  }

  /** The tables of src/override.c. */
  class Stubs {
    const hash: array<Option<Entry>>
    var overrides: seq<Override>

    ghost function View(): State
      reads this, hash
    {
      State(hash[..], overrides)
    }

    constructor ()
      ensures hash.Length == HASH_SIZE && View() == State(Empty(), []) && fresh(hash)
    {
      hash := new Option<Entry>[HASH_SIZE](i => None);
      overrides := [];
    }

    method FindOverride(name: string) returns (i: nat)
      ensures i == Find(overrides, name)
    {
      i := 0;
      while i < |overrides| && overrides[i].name != name
        invariant i <= |overrides| && forall k :: 0 <= k < i ==> overrides[k].name != name
      {
        i := i + 1;
      }
      ghost var j := Find(overrides, name);
      assert j < |overrides| ==> overrides[j].name == name;
    }

    method ProbeFor(t: Test, orig: nat) returns (k: nat)
      requires Proper(t) && hash.Length == HASH_SIZE
      ensures k == Probe(hash[..], t.hash(orig), orig)
    {
      k := t.hash(orig);
      while k < HASH_SIZE && hash[k].Some? && hash[k].value.orig != orig
        invariant t.hash(orig) <= k <= HASH_SIZE && Probe(hash[..], t.hash(orig), orig) == Probe(hash[..], k, orig)
      {
        k := k + 1;
      }
    }

    method Keep(t: Test, e: Entry)
      requires Proper(t) && hash.Length == HASH_SIZE
      modifies hash
      ensures hash[..] == Store(old(hash[..]), t.hash(e.orig), e)
    {
      var i := t.hash(e.orig);
      while i < HASH_SIZE && hash[i].Some?
        invariant t.hash(e.orig) <= i <= HASH_SIZE && FirstEmpty(hash[..], t.hash(e.orig)) == FirstEmpty(hash[..], i)
      {
        i := i + 1;
      }
      if i < HASH_SIZE {
        hash[i] := Some(e);
      }
    }

    /** usfstl_install_stub, `orig` and `stub` being the types of the function and of what
        replaces it; `fine` is false if they do not agree or there are too many stubs. */
    method InstallStub(name: string, repl: nat, orig: Signature, stub: Signature, voidStub: bool, checkArgs: bool) returns (fine: bool)
      requires hash.Length == HASH_SIZE
      modifies this, hash
      ensures hash[..] == Empty()
      ensures fine <==> Compatible(repl, orig, stub, voidStub, checkArgs) && old(Overridden(overrides, name, repl)).Ok?
      ensures if fine then Ok(overrides) == old(Overridden(overrides, name, repl)) else overrides == old(overrides)
      ensures fine && UniqueNames(old(overrides)) ==> Stubbed(overrides) == old(Stubbed(overrides))[name := repl]
    {
      if UniqueNames(overrides) {
        InstallIs(overrides, name, repl);
      }
      forall i | 0 <= i < HASH_SIZE { hash[i] := None; }
      if repl != 0 {
        if voidStub && checkArgs {
          return false;
        }
        if (if voidStub then "void" else stub.ret) != orig.ret {
          return false;
        }
        if checkArgs && stub.args != orig.args {
          return false;
        }
      }
      var i := FindOverride(name);
      if i < |overrides| {
        overrides := overrides[i := overrides[i].(repl := repl)];
        return true;
      }
      if |overrides| == MAX_OVERRIDES {
        return false;
      }
      overrides := overrides + [Override(name, repl)];
      return true;
    }

    method Search(t: Test, orig: nat, recurse: bool) returns (r: Outcome<nat>, store: bool)
      ensures r == Uncached(t, overrides, orig, recurse) && store == Stored(t, overrides, orig, recurse)
      ensures UniqueNames(overrides) ==> r == Answer(t, Stubbed(overrides), orig, recurse)
    {
      if UniqueNames(overrides) {
        UncachedIsAnswer(t, overrides, orig, recurse);
      }
      var i := FindOverride(t.name(orig));
      if i < |overrides| {
        return Ok(overrides[i].repl), true;
      }
      if t.text(orig) {
        return Ok(Resume(orig)), true;
      }
      if recurse {
        return Ok(Resume(orig)), false;
      }
      if t.permitted(orig) {
        return Ok(Resume(orig)), true;
      }
      return Aborted, false;
    }

    method FindReplacement(t: Test, orig: nat, recurse: bool) returns (r: Outcome<nat>)
      requires Proper(t) && hash.Length == HASH_SIZE
      modifies hash
      ensures (r, View()) == old(Lookup(t, View(), orig, recurse))
      ensures old(Inv(t, View())) ==> Inv(t, View()) && r == Answer(t, Stubbed(overrides), orig, recurse)
    {
      if Inv(t, View()) {
        LookupTransparent(t, View(), orig, recurse);
        UncachedIsAnswer(t, overrides, orig, recurse);
      }
      var k := ProbeFor(t, orig);
      if k < HASH_SIZE && hash[k].Some? {
        return Ok(hash[k].value.repl);
      }
      var store;
      r, store := Search(t, orig, recurse);
      if r.Ok? && store {
        Keep(t, Entry(orig, r.s));
      }
    }
  }
}
