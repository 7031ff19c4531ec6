/** Keeping a channel's model list in step with its upstream: detecting pending
    additions and removals, and applying an operator's selection of them. */
module UpstreamModels {
  import opened Lists
  import opened Options
  import opened Text

  // ----- lists of names -----

  predicate Distinct(xs: seq<string>) {
    forall i, j :: 0 <= i < j < |xs| ==> xs[i] != xs[j]
  }

  /** lo.Filter. */
  function Filter(xs: seq<string>, keep: string -> bool): seq<string> {
    if xs == [] then []
    else
      var rest, last := Filter(xs[..|xs| - 1], keep), xs[|xs| - 1];
      if keep(last) then rest + [last] else rest
  }

  lemma {:induction false} FilterMembers(xs: seq<string>, keep: string -> bool)
    ensures forall x :: x in Filter(xs, keep) <==> x in xs && keep(x)
    ensures Distinct(xs) ==> Distinct(Filter(xs, keep))
  {
    if xs != [] {
      FilterMembers(xs[..|xs| - 1], keep);
      assert xs == xs[..|xs| - 1] + [xs[|xs| - 1]];
    }
  }

  /** lo.Uniq: keeps the first of equal names. */
  function Uniq(xs: seq<string>): seq<string> {
    if xs == [] then []
    else
      var rest, last := Uniq(xs[..|xs| - 1]), xs[|xs| - 1];
      if last in rest then rest else rest + [last]
  }

  lemma {:induction false} UniqMembers(xs: seq<string>)
    ensures Distinct(Uniq(xs)) && forall x :: x in Uniq(xs) <==> x in xs
  {
    if xs != [] {
      UniqMembers(xs[..|xs| - 1]);
      assert xs == xs[..|xs| - 1] + [xs[|xs| - 1]];
    }
  }

  /** Tidy names, without repetitions. */
  predicate Normal(xs: seq<string>) {
    Distinct(xs) && forall x :: x in xs ==> Tidy(x)
  }

  /** `normalizeModelNames`. */
  function Normalize(models: seq<string>): seq<string> {
    Uniq(Trimmed(models))
  }

  lemma NormalizeIsNormal(models: seq<string>)
    ensures Normal(Normalize(models))
  {
    TrimmedIsTidy(models);
    UniqMembers(Trimmed(models));
  }

  /** Some entry of `models` trims to `x`. */
  ghost predicate Listed(models: seq<string>, x: string) {
    exists m :: m in models && TrimSpace(m) == x
  }

  /** Normalizing keeps exactly the non-empty trimmed names. */
  lemma NormalizeKeeps(models: seq<string>, x: string)
    ensures x in Normalize(models) <==> x != "" && Listed(models, x)
  {
    TrimmedKeeps(models, x);
    UniqMembers(Trimmed(models));
  }

  lemma {:induction false} TrimmedKeeps(models: seq<string>, x: string)
    ensures x in Trimmed(models) <==> x != "" && Listed(models, x)
  {
    if models != [] {
      var init, last := models[..|models| - 1], models[|models| - 1];
      assert models == init + [last];
      TrimmedKeeps(init, x);
      ListedSnoc(init, last, x);
      assert Trimmed(models) == Trimmed(init) + if TrimSpace(last) != "" then [TrimSpace(last)] else [];
    }
  }

  lemma ListedSnoc(init: seq<string>, last: string, x: string)
    ensures Listed(init + [last], x) <==> Listed(init, x) || TrimSpace(last) == x
  {
    var all := init + [last];
    assert forall m :: m in all <==> m in init || m == last;
  }

  lemma NormalIsFixed(xs: seq<string>)
    requires Normal(xs)
    ensures Normalize(xs) == xs
  {
    TrimmedOfTidy(xs);
    UniqOfDistinct(xs);
  }

  lemma {:induction false} UniqOfDistinct(xs: seq<string>)
    requires Distinct(xs)
    ensures Uniq(xs) == xs
  {
    if xs != [] {
      assert xs == xs[..|xs| - 1] + [xs[|xs| - 1]];
      UniqOfDistinct(xs[..|xs| - 1]);
      assert xs[|xs| - 1] !in xs[..|xs| - 1];
    }
  }

  function Without(xs: seq<string>, drop: seq<string>): seq<string> {
    Filter(xs, x => x !in drop)
  }

  function Within(xs: seq<string>, keep: seq<string>): seq<string> {
    Filter(xs, x => x in keep)
  }

  lemma WithoutMembers(xs: seq<string>, drop: seq<string>)
    ensures forall x :: x in Without(xs, drop) <==> x in xs && x !in drop
    ensures Distinct(xs) ==> Distinct(Without(xs, drop))
  {
    FilterMembers(xs, x => x !in drop);
  }

  lemma WithinMembers(xs: seq<string>, keep: seq<string>)
    ensures forall x :: x in Within(xs, keep) <==> x in xs && x in keep
    ensures Distinct(xs) ==> Distinct(Within(xs, keep))
  {
    FilterMembers(xs, x => x in keep);
  }

  lemma WithoutNext(xs: seq<string>, i: nat, drop: seq<string>)
    requires i < |xs| && Distinct(xs)
    ensures Without(xs[..i + 1], drop) == Without(xs[..i], drop) + (if xs[i] in drop then [] else [xs[i]])
    ensures forall m :: m in xs[..i + 1] <==> m in xs[..i] || m == xs[i]
    ensures xs[i] !in xs[..i]
  {
    assert xs[..i + 1][..i] == xs[..i];
    assert xs[..i + 1] == xs[..i] + [xs[i]];
  }

  lemma ConcatNormal(xs: seq<string>, ys: seq<string>)
    requires Normal(xs) && Normal(ys) && forall y :: y in ys ==> y !in xs
    ensures Normal(xs + ys)
  {
    var all := xs + ys;
    forall i, j | 0 <= i < j < |all| ensures all[i] != all[j] {
      if j < |xs| {
      } else if i < |xs| {
        assert all[j] in ys && all[i] in xs;
      } else {
        assert all[i] == ys[i - |xs|] && all[j] == ys[j - |xs|];
      }
    }
  }

  lemma {:induction false} FilterSame(xs: seq<string>, p: string -> bool, q: string -> bool)
    requires forall x :: x in xs ==> p(x) == q(x)
    ensures Filter(xs, p) == Filter(xs, q)
  {
    if xs != [] {
      FilterSame(xs[..|xs| - 1], p, q);
    }
  }

  lemma {:induction false} FilterNarrowed(xs: seq<string>, p: string -> bool, q: string -> bool, drop: seq<string>)
    requires forall x :: x in xs ==> (q(x) <==> p(x) && x !in drop)
    ensures Filter(xs, q) == Without(Filter(xs, p), drop)
  {
    if xs != [] {
      var init, last := xs[..|xs| - 1], xs[|xs| - 1];
      assert last in xs;
      FilterNarrowed(init, p, q, drop);
      assert p(last) ==> (Filter(init, p) + [last])[..|Filter(init, p)|] == Filter(init, p);
    }
  }

  lemma {:induction false} FilterConcat(xs: seq<string>, ys: seq<string>, p: string -> bool)
    ensures Filter(xs + ys, p) == Filter(xs, p) + Filter(ys, p)
  {
    if ys == [] {
      assert xs + ys == xs;
    } else {
      assert (xs + ys)[..|xs + ys| - 1] == xs + ys[..|ys| - 1];
      FilterConcat(xs, ys[..|ys| - 1], p);
    }
  }

  /** `mergeModelNames`, as a value: the base, then what it lacks. */
  function Merged(base: seq<string>, appended: seq<string>): seq<string> {
    var b := Normalize(base);
    var extra := Without(Normalize(appended), b);
    b + extra
  }

  /** `subtractModelNames`. */
  function Subtract(base: seq<string>, removed: seq<string>): seq<string> {
    Without(Normalize(base), Normalize(removed))
  }

  /** `intersectModelNames`. */
  function Intersect(base: seq<string>, allowed: seq<string>): seq<string> {
    Within(Normalize(base), Normalize(allowed))
  }

  /** `applySelectedModelChanges`: an added name wins over its removal. */
  function ApplySelected(origin: seq<string>, add: seq<string>, remove: seq<string>): seq<string> {
    var a := Normalize(add);
    Subtract(Merged(origin, a), Subtract(Normalize(remove), a))
  }

  lemma MergedIsNormal(base: seq<string>, appended: seq<string>)
    ensures Normal(Merged(base, appended))
  {
    NormalizeIsNormal(base);
    NormalizeIsNormal(appended);
    WithoutMembers(Normalize(appended), Normalize(base));
    ConcatNormal(Normalize(base), Without(Normalize(appended), Normalize(base)));
  }

  lemma SubtractIsNormal(base: seq<string>, removed: seq<string>)
    ensures Normal(Subtract(base, removed))
  {
    NormalizeIsNormal(base);
    WithoutMembers(Normalize(base), Normalize(removed));
  }

  lemma IntersectIsNormal(base: seq<string>, allowed: seq<string>)
    ensures Normal(Intersect(base, allowed))
  {
    NormalizeIsNormal(base);
    WithinMembers(Normalize(base), Normalize(allowed));
  }

  lemma {:induction false} UnseenIsWithout(b: seq<string>, extra: seq<string>, n: nat)
    requires n <= |extra| && Distinct(extra)
    ensures Unseen(Elements(b), extra, n) == Without(extra[..n], b)
  {
    if n > 0 {
      UnseenIsWithout(b, extra, n - 1);
      WithoutNext(extra, n - 1, b);
      WithoutMembers(extra[..n - 1], b);
    }
  }

  /** `mergeModelNames`: the loop over a seen-set. */
  method Merge(base: seq<string>, appended: seq<string>) returns (merged: seq<string>)
    ensures merged == Merged(base, appended)
  {
    hide Normalize, Without, Unseen, Elements;
    var b, extra := Normalize(base), Normalize(appended);
    var seen := CollectElements(b);
    var added := Deduplicate(seen, extra);
    NormalizeIsNormal(appended);
    UnseenIsWithout(b, extra, |extra|);
    assert extra[..|extra|] == extra;
    merged := b + added;
  }

  // ----- detect and apply -----

  const REGEX: string := "regex:"

  predicate HasRegexPrefix(name: string) {
    |name| >= |REGEX| && name[..|REGEX|] == REGEX
  }

  /** regexp.MatchString(pattern, name), false for a pattern that does not compile. */
  type Matcher = (string, string) -> bool

  /** An entry of the ignore list is a pattern or a plain name. */
  predicate Hits(entry: string, rx: Matcher, name: string) {
    if HasRegexPrefix(entry) then rx(TrimSpace(entry[|REGEX|..]), name) else entry == name
  }

  predicate Ignored(entries: seq<string>, rx: Matcher, name: string) {
    exists e :: e in entries && Hits(e, rx, name)
  }

  /** A channel: its comma-separated models, its redirects, and the update settings. */
  datatype Channel = Channel(models: string, mapping: map<string, string>,
                             ignored: seq<string>, detected: seq<string>, removed: seq<string>)

  /** normalizeModelNames(channel.GetModels()). */
  function Local(c: Channel): seq<string> {
    Normalize(Fields(c.models, ','))
  }

  lemma LocalIsNormal(c: Channel)
    ensures Normal(Local(c))
  {
    NormalizeIsNormal(Fields(c.models, ','));
  }

  /** Not served locally, not the target of a redirect, and not ignored. */
  predicate IsPendingAdd(c: Channel, rx: Matcher, x: string) {
    x !in Local(c) && x !in c.mapping.Values && !Ignored(Normalize(c.ignored), rx, x)
  }

  /** Gone from upstream, and not an alias of a redirect. */
  predicate IsPendingRemove(c: Channel, up: seq<string>, x: string) {
    x !in c.mapping && x !in up
  }

  function Adds(c: Channel, up: seq<string>, rx: Matcher): seq<string> {
    Filter(up, x => IsPendingAdd(c, rx, x))
  }

  function Removes(c: Channel, up: seq<string>): seq<string> {
    Filter(Local(c), x => IsPendingRemove(c, up, x))
  }

  /** `collectPendingUpstreamModelChangesFromModels`, adds then removes. */
  function Pending(c: Channel, upstream: seq<string>, rx: Matcher): (seq<string>, seq<string>) {
    var up := Normalize(upstream);
    (Normalize(Adds(c, up, rx)), Normalize(Removes(c, up)))
  }

  /** A detection without automatic adding records what is pending. */
  function Detect(c: Channel, upstream: seq<string>, rx: Matcher): Channel {
    c.(detected := Pending(c, upstream, rx).0, removed := Pending(c, upstream, rx).1)
  }

  datatype Report = Report(added: seq<string>, removed: seq<string>,
                           remaining: seq<string>, remainingRemove: seq<string>, changed: bool)

  /** `applyChannelUpstreamModelUpdates`, up to its database write. */
  function Apply(c: Channel, add: seq<string>, ignore: seq<string>, remove: seq<string>): (Channel, Report) {
    var pendingAdd, pendingRemove := Normalize(c.detected), Normalize(c.removed);
    var a := Intersect(add, pendingAdd);
    var g := Intersect(ignore, pendingAdd);
    var r := Subtract(Intersect(remove, pendingRemove), a);
    var next := ApplySelected(Local(c), a, r);
    var changed := Local(c) != next;
    var merged := Merged(c.ignored, g);
    var report := Report(a, r, Subtract(pendingAdd, a + g), Subtract(pendingRemove, r), changed);
    (c.(models := if changed then Join(next, ',') else c.models,
        ignored := if a != [] then Subtract(merged, a) else merged,
        detected := report.remaining,
        removed := report.remainingRemove),
     report)
  }

  // ----- detecting again after an apply -----

  /** On normal lists the helpers are plain filters. */
  lemma NormalForms(xs: seq<string>, ys: seq<string>)
    requires Normal(xs) && Normal(ys)
    ensures Subtract(xs, ys) == Without(xs, ys) && Merged(xs, ys) == xs + Without(ys, xs)
  {
    NormalIsFixed(xs);
    NormalIsFixed(ys);
  }

  lemma PendingIsFiltered(c: Channel, upstream: seq<string>, rx: Matcher)
    ensures var up := Normalize(upstream);
      Pending(c, upstream, rx) == (Adds(c, up, rx), Removes(c, up)) &&
      Normal(Adds(c, up, rx)) && Normal(Removes(c, up)) &&
      (forall x :: x in Adds(c, up, rx) <==> x in up && IsPendingAdd(c, rx, x)) &&
      (forall x :: x in Removes(c, up) <==> x in Local(c) && IsPendingRemove(c, up, x))
  {
    var up := Normalize(upstream);
    NormalizeIsNormal(upstream);
    LocalIsNormal(c);
    FilterMembers(up, x => IsPendingAdd(c, rx, x));
    FilterMembers(Local(c), x => IsPendingRemove(c, up, x));
    NormalIsFixed(Adds(c, up, rx));
    NormalIsFixed(Removes(c, up));
  }

  /** No name contains a comma. */
  predicate CommaFree(xs: seq<string>) {
    forall x :: x in xs ==> ',' !in x
  }

  /** What names become when they are stored with commas between them and read back. */
  function PiecesOf(names: seq<string>): seq<string> {
    Trimmed(Pieces(names, ','))
  }

  lemma PiecesOfConcat(xs: seq<string>, ys: seq<string>)
    ensures PiecesOf(xs + ys) == PiecesOf(xs) + PiecesOf(ys)
  {
    PiecesConcat(xs, ys, ',');
    TrimmedConcat(Pieces(xs, ','), Pieces(ys, ','));
  }

  lemma PiecesOfCommaFree(names: seq<string>)
    requires Normal(names) && CommaFree(names)
    ensures PiecesOf(names) == names
  {
    PiecesOfPlain(names, ',');
    TrimmedOfTidy(names);
  }

  /** A name is among its own pieces exactly when it has no comma. */
  lemma OwnPiece(names: seq<string>, x: string)
    requires Normal(names) && x in names
    ensures x in PiecesOf(names) <==> ',' !in x
  {
    TrimmedKeeps(Pieces(names, ','), x);
    if ',' !in x {
      PlainPartIsPiece(names, x, ',');
      TrimmedOfTidy([x]);
      assert TrimSpace(x) == x;
    } else if x in PiecesOf(names) {
      var m :| m in Pieces(names, ',') && TrimSpace(m) == x;
      PiecesHaveNoSep(names, ',');
      TrimIsPart(m, SPACES, ',');
      assert false;
    }
  }

  /** A list of normal, comma-free names survives being stored in a channel. */
  lemma StoredNames(c: Channel, names: seq<string>)
    requires c.models == Join(names, ',')
    ensures Local(c) == Uniq(PiecesOf(names))
    ensures Normal(names) && CommaFree(names) ==> Local(c) == names
  {
    StoredPieces(names, ',');
    if Normal(names) && CommaFree(names) {
      PiecesOfCommaFree(names);
      UniqOfDistinct(names);
    }
  }

  /** Names read from a channel never contain a comma. */
  lemma LocalIsCommaFree(c: Channel)
    ensures CommaFree(Local(c))
  {
    forall x | x in Local(c) ensures ',' !in x {
      NormalizeKeeps(Fields(c.models, ','), x);
      var m :| m in Fields(c.models, ',') && TrimSpace(m) == x;
      TrimIsPart(m, SPACES, ',');
    }
  }

  lemma TrimIsPart(s: string, cut: string, c: char)
    ensures c in Trim(s, cut) ==> c in s
  {}

  lemma {:induction false} FilterNone(xs: seq<string>, p: string -> bool)
    requires forall x :: x in xs ==> !p(x)
    ensures Filter(xs, p) == []
  {
    if xs != [] {
      assert xs[|xs| - 1] in xs;
      FilterNone(xs[..|xs| - 1], p);
    }
  }

  lemma {:induction false} FilterWithout(xs: seq<string>, r: seq<string>, p: string -> bool)
    ensures Filter(Without(xs, r), p) == Without(Filter(xs, p), r)
  {
    if xs != [] {
      var init, last := xs[..|xs| - 1], xs[|xs| - 1];
      FilterWithout(init, r, p);
      assert last !in r ==> (Without(init, r) + [last])[..|Without(init, r)|] == Without(init, r);
      assert p(last) ==> (Filter(init, p) + [last])[..|Filter(init, p)|] == Filter(init, p);
    }
  }

  /** Some entry hits the name that was ignored before or is now, and was not added. */
  ghost predicate StillIgnored(c: Channel, a: seq<string>, g: seq<string>, rx: Matcher, x: string) {
    exists e :: (e in Normalize(c.ignored) || e in g) && e !in a && Hits(e, rx, x)
  }

  function NextIgnoreList(c: Channel, a: seq<string>, g: seq<string>): seq<string> {
    if a != [] then Subtract(Merged(c.ignored, g), a) else Merged(c.ignored, g)
  }

  lemma IgnoredAgain(c: Channel, a: seq<string>, g: seq<string>, rx: Matcher, x: string)
    requires Normal(a) && Normal(g)
    ensures Ignored(Normalize(NextIgnoreList(c, a, g)), rx, x) <==> StillIgnored(c, a, g, rx, x)
  {
    var next := NextIgnoreList(c, a, g);
    MergedIsNormal(c.ignored, g);
    SubtractIsNormal(Merged(c.ignored, g), a);
    NormalIsFixed(next);
    hide Hits, Normalize, Subtract, Merged;
    forall e ensures e in next <==> (e in Normalize(c.ignored) || e in g) && e !in a {
      NextIgnored(c, a, g, e);
    }
  }

  lemma NextIgnored(c: Channel, a: seq<string>, g: seq<string>, e: string)
    requires Normal(a) && Normal(g)
    ensures e in NextIgnoreList(c, a, g) <==> (e in Normalize(c.ignored) || e in g) && e !in a
  {
    var merged := Merged(c.ignored, g);
    NormalIsFixed(g);
    NormalIsFixed(a);
    MergedIsNormal(c.ignored, g);
    NormalIsFixed(merged);
    WithoutMembers(g, Normalize(c.ignored));
    WithoutMembers(merged, a);
  }

  /** The names that the report of an apply removes from the pending additions. */
  lemma ConcatNames(a: seq<string>, g: seq<string>, x: string)
    requires Normal(a) && Normal(g)
    ensures x in Normalize(a + g) <==> x in a || x in g
  {
    TrimmedOfTidy(a + g);
    UniqMembers(a + g);
  }

  /** The model list after adding `a` and removing `r`. */
  function Next(local: seq<string>, a: seq<string>, r: seq<string>): seq<string> {
    Without(local + Without(a, local), r)
  }

  /** What Apply computes, for a channel whose pending lists are a detection's. */
  lemma ApplyOnDetected(c: Channel, upstream: seq<string>, rx: Matcher,
                        add: seq<string>, ignore: seq<string>, remove: seq<string>)
    ensures var up := Normalize(upstream);
      var (c', report) := Apply(Detect(c, upstream, rx), add, ignore, remove);
      var g := Intersect(ignore, Adds(c, up, rx));
      var next := Next(Local(c), report.added, report.removed);
      Normal(report.added) && Normal(g) && Normal(report.removed) && Normal(next) &&
      (forall x :: x in report.added ==> x in Adds(c, up, rx)) &&
      (forall x :: x in g ==> x in Adds(c, up, rx)) &&
      (forall x :: x in report.removed ==> x in Removes(c, up) && x !in report.added) &&
      report.remaining == Without(Adds(c, up, rx), Normalize(report.added + g)) &&
      report.remainingRemove == Without(Removes(c, up), report.removed) &&
      c'.mapping == c.mapping &&
      c'.models == (if Local(c) != next then Join(next, ',') else c.models) &&
      c'.ignored == NextIgnoreList(c, report.added, g)
  {
    var up, d := Normalize(upstream), Detect(c, upstream, rx);
    PendingIsFiltered(c, upstream, rx);
    var pa, pr := Adds(c, up, rx), Removes(c, up);
    NormalIsFixed(pa);
    NormalIsFixed(pr);
    var a, g := Intersect(add, pa), Intersect(ignore, pa);
    var sel := Intersect(remove, pr);
    var r := Subtract(sel, a);
    IntersectIsNormal(add, pa);
    IntersectIsNormal(ignore, pa);
    IntersectIsNormal(remove, pr);
    SubtractIsNormal(sel, a);
    LocalIsNormal(c);
    WithinMembers(Normalize(add), pa);
    WithinMembers(Normalize(ignore), pa);
    WithinMembers(Normalize(remove), pr);
    NormalForms(sel, a);
    WithoutMembers(sel, a);
    NextModels(Local(c), a, r);
    NormalForms(pr, r);
    assert Local(d) == Local(c);
  }

  lemma NextModels(local: seq<string>, a: seq<string>, r: seq<string>)
    requires Normal(local) && Normal(a) && Normal(r) && forall x :: x in r ==> x !in a
    ensures var next := Next(local, a, r); ApplySelected(local, a, r) == next && Normal(next)
  {
    NormalIsFixed(a);
    NormalIsFixed(r);
    NormalForms(r, a);
    FilterAll(r, x => x !in a);
    NormalForms(local, a);
    MergedIsNormal(local, a);
    SubtractIsNormal(Merged(local, a), r);
    NormalForms(Merged(local, a), r);
  }

  lemma {:induction false} FilterAll(xs: seq<string>, p: string -> bool)
    requires forall x :: x in xs ==> p(x)
    ensures Filter(xs, p) == xs
  {
    if xs != [] {
      assert xs[|xs| - 1] in xs;
      FilterAll(xs[..|xs| - 1], p);
      assert xs == xs[..|xs| - 1] + [xs[|xs| - 1]];
    }
  }

  /** Without repetitions, a list ends in what was not seen in its first part. */
  lemma {:induction false} UniqConcat(xs: seq<string>, ys: seq<string>, n: nat)
    requires Distinct(xs) && n <= |ys|
    ensures Uniq(xs + ys[..n]) == xs + Unseen(Elements(xs), ys, n)
  {
    var all := xs + ys[..n];
    if n == 0 {
      assert all == xs;
      UniqOfDistinct(xs);
    } else {
      assert all[..|all| - 1] == xs + ys[..n - 1];
      UniqConcat(xs, ys, n - 1);
    }
  }

  lemma NextIsConcat(local: seq<string>, a: seq<string>, r: seq<string>)
    requires forall x :: x in a ==> x !in local && x !in r
    ensures Next(local, a, r) == Without(local, r) + a
  {
    FilterAll(a, x => x !in local);
    FilterConcat(local, a, x => x !in r);
    FilterAll(a, x => x !in r);
  }

  /** The models read after an apply: what was kept, then the pieces of what was added
      that are not there already. */
  lemma LocalAgain(c: Channel, c': Channel, a: seq<string>, r: seq<string>) returns (extra: seq<string>)
    requires forall x :: x in a ==> x !in Local(c) && x !in r
    requires c'.models == if Local(c) != Next(Local(c), a, r) then Join(Next(Local(c), a, r), ',') else c.models
    ensures Local(c') == Without(Local(c), r) + extra
    ensures forall x :: x in extra <==> x in PiecesOf(a) && x !in Without(Local(c), r)
  {
    hide Fields, TrimSpace, Uniq, Filter;
    var kept, pieces := Without(Local(c), r), PiecesOf(a);
    NextIsConcat(Local(c), a, r);
    KeptIsNormal(c, r);
    extra := Unseen(Elements(kept), pieces, |pieces|);
    UnseenIsExact(Elements(kept), pieces, |pieces|);
    if Local(c) == kept + a {
      AddedIsListed(kept, a);
      assert a == [];
    } else {
      StoredNames(c', kept + a);
      PiecesOfConcat(kept, a);
      PiecesOfCommaFree(kept);
      UniqConcat(kept, pieces, |pieces|);
      assert pieces[..|pieces|] == pieces;
    }
  }

  lemma KeptIsNormal(c: Channel, r: seq<string>)
    ensures Normal(Without(Local(c), r)) && CommaFree(Without(Local(c), r))
  {
    LocalIsNormal(c);
    LocalIsCommaFree(c);
    WithoutMembers(Local(c), r);
  }

  lemma AddedIsListed(kept: seq<string>, a: seq<string>)
    ensures a == [] || exists x :: x in a && x in kept + a
    ensures kept + [] == kept
  {
    if a != [] {
      assert a[0] in a && (kept + a)[|kept|] == a[0];
    }
  }

  ghost predicate LocalAfter(c: Channel, c': Channel, a: seq<string>, r: seq<string>) {
    forall x :: x in Local(c') <==> (x in Local(c) && x !in r) || x in PiecesOf(a)
  }

  /** What is pending after an apply, for an upstream name. */
  lemma PendingAddAgain(c: Channel, c': Channel, a: seq<string>, g: seq<string>, r: seq<string>,
                        rx: Matcher, x: string)
    requires Normal(a) && Normal(g) && x !in r
    requires c'.mapping == c.mapping && LocalAfter(c, c', a, r) && c'.ignored == NextIgnoreList(c, a, g)
    ensures IsPendingAdd(c', rx, x) <==>
      x !in Local(c) && x !in c.mapping.Values && !Settled(c, a, g, rx, x)
  {
    IgnoredAgain(c, a, g, rx, x);
  }

  /** Read back as a model, or still ignored. */
  ghost predicate Settled(c: Channel, a: seq<string>, g: seq<string>, rx: Matcher, x: string) {
    x in PiecesOf(a) || StillIgnored(c, a, g, rx, x)
  }

  /** The report and the next detection agree on one name. */
  ghost predicate AgreeOn(c: Channel, a: seq<string>, g: seq<string>, rx: Matcher, x: string) {
    x !in Local(c) && x !in c.mapping.Values ==>
      (Settled(c, a, g, rx, x) <==> Ignored(Normalize(c.ignored), rx, x) || x in g || x in a)
  }

  lemma PendingAgreesIff(c: Channel, c': Channel, a: seq<string>, g: seq<string>, r: seq<string>,
                         rx: Matcher, x: string)
    requires Normal(a) && Normal(g) && x !in r
    requires c'.mapping == c.mapping && LocalAfter(c, c', a, r) && c'.ignored == NextIgnoreList(c, a, g)
    ensures (IsPendingAdd(c', rx, x) <==> IsPendingAdd(c, rx, x) && x !in Normalize(a + g)) <==>
      AgreeOn(c, a, g, rx, x)
  {
    hide Settled, Ignored, Normalize, Local, NextIgnoreList, LocalAfter;
    PendingAddAgain(c, c', a, g, r, rx, x);
    ConcatNames(a, g, x);
  }

  lemma AddsAgreeIff(c: Channel, c': Channel, up: seq<string>, a: seq<string>, g: seq<string>, r: seq<string>,
                     rx: Matcher)
    requires Normal(a) && Normal(g) && forall x :: x in up ==> x !in r
    requires c'.mapping == c.mapping && LocalAfter(c, c', a, r) && c'.ignored == NextIgnoreList(c, a, g)
    ensures Adds(c', up, rx) == Without(Adds(c, up, rx), Normalize(a + g)) <==>
      forall x :: x in up ==> AgreeOn(c, a, g, rx, x)
  {
    hide AgreeOn, IsPendingAdd, Normalize, Local, NextIgnoreList, LocalAfter;
    var drop := Normalize(a + g);
    forall x | x in up
      ensures (IsPendingAdd(c', rx, x) <==> IsPendingAdd(c, rx, x) && x !in drop) <==> AgreeOn(c, a, g, rx, x)
    {
      PendingAgreesIff(c, c', a, g, r, rx, x);
    }
    if forall x :: x in up ==> AgreeOn(c, a, g, rx, x) {
      FilterNarrowed(up, x => IsPendingAdd(c, rx, x), x => IsPendingAdd(c', rx, x), drop);
    }
    if Adds(c', up, rx) == Without(Adds(c, up, rx), drop) {
      FilterMembers(up, x => IsPendingAdd(c', rx, x));
      FilterMembers(up, x => IsPendingAdd(c, rx, x));
      WithoutMembers(Adds(c, up, rx), drop);
    }
  }

  /** No piece of an added name is a model that upstream does not have, unless it stays. */
  ghost predicate PiecesAreServed(c: Channel, up: seq<string>, a: seq<string>, r: seq<string>) {
    forall x :: x in PiecesOf(a) ==> x in up || x in c.mapping || (x in Local(c) && x !in r)
  }

  lemma RemovesAgreeIff(c: Channel, c': Channel, up: seq<string>, a: seq<string>, r: seq<string>, extra: seq<string>)
    requires c'.mapping == c.mapping && Local(c') == Without(Local(c), r) + extra
    requires forall x :: x in extra <==> x in PiecesOf(a) && x !in Without(Local(c), r)
    ensures Removes(c', up) == Without(Removes(c, up), r) <==> PiecesAreServed(c, up, a, r)
  {
    hide PiecesOf, Local;
    var kept, gone := Without(Local(c), r), (x: string) => IsPendingRemove(c, up, x);
    WithoutMembers(Local(c), r);
    FilterSame(Local(c'), x => IsPendingRemove(c', up, x), gone);
    FilterConcat(kept, extra, gone);
    FilterWithout(Local(c), r, gone);
    FilterMembers(extra, gone);
    if PiecesAreServed(c, up, a, r) {
      FilterNone(extra, gone);
    }
  }

  /** When a selection keeps the next detection in step with the report: an added name
      with a comma is still ignored, every ignored name is read back or still hit, no
      remaining name is read back or hit by a newly ignored pattern, and no piece of an
      added name is unknown upstream. */
  ghost predicate InStep(c: Channel, up: seq<string>, a: seq<string>, g: seq<string>, r: seq<string>, rx: Matcher) {
    (forall x :: x in a && ',' in x ==> StillIgnored(c, a, g, rx, x)) &&
    (forall x :: x in g && x !in a ==> Settled(c, a, g, rx, x)) &&
    (forall x :: x in Adds(c, up, rx) && x !in a && x !in g ==> x !in PiecesOf(a)) &&
    (forall x, p :: x in Adds(c, up, rx) && x !in a && x !in g && p in g && p !in a ==> !Hits(p, rx, x)) &&
    (forall x ::
       x in up && x !in Local(c) && x !in c.mapping.Values && x !in a && Ignored(Normalize(c.ignored), rx, x) ==>
       Settled(c, a, g, rx, x)) &&
    PiecesAreServed(c, up, a, r)
  }

  lemma InStepIff(c: Channel, upstream: seq<string>, a: seq<string>, g: seq<string>, r: seq<string>, rx: Matcher)
    requires var up := Normalize(upstream);
      Normal(a) && (forall x :: x in a ==> x in Adds(c, up, rx)) && (forall x :: x in g ==> x in Adds(c, up, rx))
    ensures var up := Normalize(upstream);
      InStep(c, up, a, g, r, rx) <==>
      (forall x :: x in up ==> AgreeOn(c, a, g, rx, x)) && PiecesAreServed(c, up, a, r)
  {
    var up := Normalize(upstream);
    PendingIsFiltered(c, upstream, rx);
    hide Normalize, Local, Adds, PiecesOf, PiecesAreServed;
    forall x | x in a ensures x in PiecesOf(a) <==> ',' !in x {
      OwnPiece(a, x);
    }
    if InStep(c, up, a, g, r, rx) {
      forall x | x in up ensures AgreeOn(c, a, g, rx, x) {
        NameInStepAgrees(c, up, a, g, r, rx, x);
      }
    }
    if (forall x :: x in up ==> AgreeOn(c, a, g, rx, x)) && PiecesAreServed(c, up, a, r) {
      forall x, p | x in Adds(c, up, rx) && x !in a && x !in g && p in g && p !in a ensures !Hits(p, rx, x) {
        assert AgreeOn(c, a, g, rx, x);
      }
    }
  }

  lemma NameInStepAgrees(c: Channel, up: seq<string>, a: seq<string>, g: seq<string>, r: seq<string>,
                         rx: Matcher, x: string)
    requires InStep(c, up, a, g, r, rx) && x in up
    requires forall y :: y in Adds(c, up, rx) <==> y in up && IsPendingAdd(c, rx, y)
    requires forall y :: y in a ==> (y in PiecesOf(a) <==> ',' !in y)
    ensures AgreeOn(c, a, g, rx, x)
  {
    hide Normalize, Local, Adds, Hits, PiecesOf, PiecesAreServed;
    if x !in Local(c) && x !in a && x !in c.mapping.Values && x !in g && !Ignored(Normalize(c.ignored), rx, x) {
      assert x in Adds(c, up, rx);
    }
  }

  /** Detecting again after an apply finds exactly, as sequences, what the apply reported
      as remaining, if and only if the selection keeps them in step. */
  lemma DetectAfterApplyIff(c: Channel, upstream: seq<string>, rx: Matcher,
                            add: seq<string>, ignore: seq<string>, remove: seq<string>)
    ensures var up := Normalize(upstream);
      var (c', report) := Apply(Detect(c, upstream, rx), add, ignore, remove);
      Pending(c', upstream, rx) == (report.remaining, report.remainingRemove) <==>
      InStep(c, up, report.added, Intersect(ignore, Adds(c, up, rx)), report.removed, rx)
  {
    hide Apply, Detect, InStep, AgreeOn, Normalize, Local, NextIgnoreList, Next, Intersect, PiecesOf, PiecesAreServed;
    var up := Normalize(upstream);
    var (c', report) := Apply(Detect(c, upstream, rx), add, ignore, remove);
    var a, r, g := report.added, report.removed, Intersect(ignore, Adds(c, up, rx));
    ApplyOnDetected(c, upstream, rx, add, ignore, remove);
    PendingIsFiltered(c, upstream, rx);
    PendingIsFiltered(c', upstream, rx);
    var extra := LocalAgain(c, c', a, r);
    WithoutMembers(Local(c), r);
    AddsAgreeIff(c, c', up, a, g, r, rx);
    RemovesAgreeIff(c, c', up, a, r, extra);
    InStepIff(c, upstream, a, g, r, rx);
  }

  /** The selection names no upstream model that looks like a pattern. */
  ghost predicate PlainSelection(added: seq<string>, ignored: seq<string>) {
    forall x :: x in added || x in ignored ==> !HasRegexPrefix(x)
  }

  lemma PlainInStepIff(c: Channel, upstream: seq<string>, a: seq<string>, g: seq<string>, r: seq<string>, rx: Matcher)
    requires PlainSelection(a, g) && Normal(a) && forall x :: x in a ==> x in Adds(c, Normalize(upstream), rx)
    ensures InStep(c, Normalize(upstream), a, g, r, rx) <==> CommaFree(a)
  {
    PendingIsFiltered(c, upstream, rx);
    hide Normalize, Local, Adds, PiecesOf;
    forall x | x in g && x !in a ensures StillIgnored(c, a, g, rx, x) {
      assert Hits(x, rx, x);
    }
    forall x | x !in a && Ignored(Normalize(c.ignored), rx, x) ensures StillIgnored(c, a, g, rx, x) {
      var e :| e in Normalize(c.ignored) && Hits(e, rx, x);
      assert e !in a;
    }
    if CommaFree(a) {
      PiecesOfCommaFree(a);
    }
  }

  /** For plain selections the promise holds exactly when no added name contains a
      comma: such a name is split when the model list is read back. */
  lemma DetectAfterApplyIffCommaFree(c: Channel, upstream: seq<string>, rx: Matcher,
                                     add: seq<string>, ignore: seq<string>, remove: seq<string>)
    requires PlainSelection(Apply(Detect(c, upstream, rx), add, ignore, remove).1.added,
                            Intersect(ignore, Adds(c, Normalize(upstream), rx)))
    ensures var (c', report) := Apply(Detect(c, upstream, rx), add, ignore, remove);
      Pending(c', upstream, rx) == (report.remaining, report.remainingRemove) <==> CommaFree(report.added)
  {
    hide Apply, Detect, Pending, InStep, Normalize, Intersect, Adds, NextIgnoreList, Next, Local, CommaFree;
    var report := Apply(Detect(c, upstream, rx), add, ignore, remove).1;
    var g := Intersect(ignore, Adds(c, Normalize(upstream), rx));
    ApplyOnDetected(c, upstream, rx, add, ignore, remove);
    DetectAfterApplyIff(c, upstream, rx, add, ignore, remove);
    PlainInStepIff(c, upstream, report.added, g, report.removed, rx);
  }

  lemma IntersectSelf(xs: seq<string>)
    requires Normal(xs)
    ensures Intersect(xs, xs) == xs && Intersect([], xs) == []
  {
    NormalIsFixed(xs);
    FilterAll(xs, x => x in xs);
  }

  lemma SubtractApart(xs: seq<string>, ys: seq<string>)
    requires Normal(xs) && Normal(ys) && forall x :: x in xs ==> x !in ys
    ensures Subtract(xs, ys) == xs
  {
    NormalForms(xs, ys);
    FilterAll(xs, x => x !in ys);
  }

  /** Selecting everything adds and removes everything. */
  lemma ApplyAllSelects(c: Channel)
    requires Normal(c.detected) && Normal(c.removed) && forall x :: x in c.removed ==> x !in c.detected
    ensures var report := Apply(c, c.detected, [], c.removed).1;
      report.added == c.detected && report.removed == c.removed
  {
    NormalIsFixed(c.detected);
    NormalIsFixed(c.removed);
    IntersectSelf(c.detected);
    IntersectSelf(c.removed);
    SubtractApart(c.removed, c.detected);
  }

  lemma NothingRemains(xs: seq<string>)
    requires Normal(xs)
    ensures Without(xs, xs) == [] && Without(xs, Normalize(xs + [])) == []
  {
    NormalIsFixed(xs);
    assert xs + [] == xs;
    FilterNone(xs, x => x !in xs);
  }

  /** Applying everything that is pending leaves nothing pending, if and only if the
      selection of everything is in step. */
  lemma ApplyAllReachesFixpointIff(c: Channel, upstream: seq<string>, rx: Matcher)
    ensures var d := Detect(c, upstream, rx);
      Pending(Apply(d, d.detected, [], d.removed).0, upstream, rx) == ([], []) <==>
      InStep(c, Normalize(upstream), d.detected, [], d.removed, rx)
  {
    var up, d := Normalize(upstream), Detect(c, upstream, rx);
    PendingIsFiltered(c, upstream, rx);
    ApplyAllSelects(d);
    IntersectSelf(Adds(c, up, rx));
    DetectAfterApplyIff(c, upstream, rx, d.detected, [], d.removed);
    ApplyOnDetected(c, upstream, rx, d.detected, [], d.removed);
    NothingRemains(d.detected);
    NothingRemains(d.removed);
  }

  /** For plain names that is: no pending name has a comma. */
  lemma ApplyAllReachesFixpoint(c: Channel, upstream: seq<string>, rx: Matcher)
    requires PlainSelection(Pending(c, upstream, rx).0, [])
    ensures var d := Detect(c, upstream, rx);
      Pending(Apply(d, d.detected, [], d.removed).0, upstream, rx) == ([], []) <==> CommaFree(d.detected)
  {
    hide Apply, InStep, Normalize, CommaFree;
    var d := Detect(c, upstream, rx);
    ApplyAllReachesFixpointIff(c, upstream, rx);
    PendingIsFiltered(c, upstream, rx);
    PlainInStepIff(c, upstream, d.detected, [], d.removed, rx);
  }

  lemma SelectOne(p: string, pending: seq<string>)
    requires Normal(pending) && p in pending
    ensures Intersect([p], pending) == [p] && Intersect([], pending) == []
  {
    assert Tidy(p);
    NormalIsFixed([p]);
    NormalIsFixed(pending);
    FilterAll([p], x => x in pending);
  }

  lemma SelectNone(pending: seq<string>)
    ensures Intersect([], pending) == [] && Subtract([], pending) == []
  {
  }

  /** Ignoring or adding one pending name, as the next detection sees it. */
  lemma AfterOne(c: Channel, upstream: seq<string>, rx: Matcher, p: string, adds: bool, x: string)
    requires p in Pending(c, upstream, rx).0 && (adds ==> ',' !in p) && x in Normalize(upstream)
    ensures var none: seq<string> := [];
      var (a, g) := if adds then ([p], none) else (none, [p]);
      var (c', report) := Apply(Detect(c, upstream, rx), a, g, none);
      (x in report.remaining <==> x in Pending(c, upstream, rx).0 && x != p) &&
      (x in Pending(c', upstream, rx).0 <==>
         x !in Local(c) && x !in a && x !in c.mapping.Values && !StillIgnored(c, a, g, rx, x))
  {
    var none: seq<string> := [];
    var up := Normalize(upstream);
    var (a, g) := if adds then ([p], none) else (none, [p]);
    var (c', report) := Apply(Detect(c, upstream, rx), a, g, none);
    PendingIsFiltered(c, upstream, rx);
    SelectOne(p, Adds(c, up, rx));
    SelectNone(Adds(c, up, rx));
    OneIsReported(c, upstream, rx, a, g);
    ApplyOnDetected(c, upstream, rx, a, g, none);
    hide Apply, Detect, Normalize, Local, NextIgnoreList, Next, Intersect, StillIgnored;
    PendingIsFiltered(c', upstream, rx);
    ConcatNames(a, g, x);
    WithoutMembers(Adds(c, up, rx), Normalize(a + g));
    var extra := LocalAgain(c, c', a, report.removed);
    WithoutMembers(Local(c), report.removed);
    PiecesOfCommaFree(a);
    PendingAddAgain(c, c', a, g, report.removed, rx, x);
  }

  lemma OneIsReported(c: Channel, upstream: seq<string>, rx: Matcher, a: seq<string>, g: seq<string>)
    requires var pending := Adds(c, Normalize(upstream), rx); Intersect(a, pending) == a
    ensures Apply(Detect(c, upstream, rx), a, g, []).1.added == a
    ensures Apply(Detect(c, upstream, rx), a, g, []).1.removed == []
  {
    PendingIsFiltered(c, upstream, rx);
    NormalIsFixed(Adds(c, Normalize(upstream), rx));
    SelectNone(Normalize(Removes(c, Normalize(upstream))));
    SelectNone(a);
  }

  /** Ignoring an upstream model whose own name is a pattern also hides every
      pending model that the pattern matches. */
  lemma RegexNameWidensIgnore(c: Channel, upstream: seq<string>, rx: Matcher, p: string, y: string)
    requires p in Pending(c, upstream, rx).0 && y in Pending(c, upstream, rx).0 && y != p && Hits(p, rx, y)
    ensures var (c', report) := Apply(Detect(c, upstream, rx), [], [p], []);
      y in report.remaining && y !in Pending(c', upstream, rx).0
  {
    PendingIsFiltered(c, upstream, rx);
    AfterOne(c, upstream, rx, p, false, y);
    assert p in [p] && Hits(p, rx, y);
  }

  /** Ignoring one whose pattern does not match its own name leaves it pending. */
  lemma UnmatchedPatternStaysPending(c: Channel, upstream: seq<string>, rx: Matcher, p: string)
    requires p in Pending(c, upstream, rx).0 && !Hits(p, rx, p)
    ensures var (c', report) := Apply(Detect(c, upstream, rx), [], [p], []);
      p !in report.remaining && p in Pending(c', upstream, rx).0
  {
    PendingIsFiltered(c, upstream, rx);
    AfterOne(c, upstream, rx, p, false, p);
  }

  /** Adding one whose pattern is an entry of the ignore list takes the entry off, and
      what only it hit becomes pending without having been reported. */
  lemma AddedPatternExposes(c: Channel, upstream: seq<string>, rx: Matcher, p: string, y: string)
    requires p in Pending(c, upstream, rx).0 && ',' !in p && p in Normalize(c.ignored) && Hits(p, rx, y) && y != p
    requires y in Normalize(upstream) && y !in Local(c) && y !in c.mapping.Values
    requires forall e :: e in Normalize(c.ignored) && e != p ==> !Hits(e, rx, y)
    ensures var (c', report) := Apply(Detect(c, upstream, rx), [p], [], []);
      y !in report.remaining && y in Pending(c', upstream, rx).0
  {
    PendingIsFiltered(c, upstream, rx);
    AfterOne(c, upstream, rx, p, true, y);
    assert Ignored(Normalize(c.ignored), rx, y);
  }

  // ----- what is detected and what a selection does, name by name -----

  /** What is pending, in terms of the channel and the upstream list: an addition is listed
      upstream and neither served, nor a redirect's target, nor named or matched by an
      entry of the ignore list; a removal is served, not listed upstream and no alias. */
  lemma PendingIff(c: Channel, upstream: seq<string>, rx: Matcher, x: string)
    ensures x in Pending(c, upstream, rx).0 <==>
      x != "" && Listed(upstream, x) && !Listed(Fields(c.models, ','), x) && x !in c.mapping.Values &&
      !exists e ::
        e != "" && Listed(c.ignored, e) &&
        if "regex:" <= e then rx(TrimSpace(e[6..]), x) else e == x
    ensures x in Pending(c, upstream, rx).1 <==>
      x != "" && Listed(Fields(c.models, ','), x) && !Listed(upstream, x) && x !in c.mapping
  {
    hide Listed, TrimSpace, Fields;
    PendingIsFiltered(c, upstream, rx);
    NormalizeKeeps(upstream, x);
    NormalizeKeeps(Fields(c.models, ','), x);
    forall e ensures e in Normalize(c.ignored) <==> e != "" && Listed(c.ignored, e) {
      NormalizeKeeps(c.ignored, e);
    }
    hide Normalize, Adds, Removes, Pending;
    forall e ensures HasRegexPrefix(e) <==> "regex:" <= e {}
    if e :| e != "" && Listed(c.ignored, e) && if "regex:" <= e then rx(TrimSpace(e[6..]), x) else e == x {
      assert Hits(e, rx, x);
    }
  }

  lemma IntersectIff(base: seq<string>, allowed: seq<string>, x: string)
    ensures x in Intersect(base, allowed) <==> x != "" && Listed(base, x) && Listed(allowed, x)
  {
    hide Listed;
    NormalizeKeeps(base, x);
    NormalizeKeeps(allowed, x);
    WithinMembers(Normalize(base), Normalize(allowed));
  }

  lemma SubtractIff(base: seq<string>, removed: seq<string>, x: string)
    ensures x in Subtract(base, removed) <==> x != "" && Listed(base, x) && !Listed(removed, x)
  {
    hide Listed;
    NormalizeKeeps(base, x);
    NormalizeKeeps(removed, x);
    WithoutMembers(Normalize(base), Normalize(removed));
  }

  lemma NormalIsListed(xs: seq<string>, x: string)
    requires Normal(xs)
    ensures x in xs <==> x != "" && Listed(xs, x)
  {
    hide Listed;
    NormalIsFixed(xs);
    NormalizeKeeps(xs, x);
  }

  /** Which names a selection adds, removes, ignores and leaves, for every channel: it
      adds and ignores pending additions only and removes pending removals only, and a
      name that is added is not removed. */
  lemma ApplyIff(c: Channel, add: seq<string>, ignore: seq<string>, remove: seq<string>, x: string)
    ensures var (c', report) := Apply(c, add, ignore, remove);
      (x in report.added <==> x != "" && Listed(add, x) && Listed(c.detected, x)) &&
      (x in report.removed <==> x != "" && Listed(remove, x) && Listed(c.removed, x) && x !in report.added) &&
      (x in report.remaining <==> x != "" && Listed(c.detected, x) && !Listed(add, x) && !Listed(ignore, x)) &&
      (x in report.remainingRemove <==> x != "" && Listed(c.removed, x) && x !in report.removed) &&
      (x in c'.ignored <==>
         x != "" && (Listed(c.ignored, x) || (Listed(ignore, x) && Listed(c.detected, x))) && x !in report.added) &&
      Normal(report.added) && Normal(report.removed) && Normal(report.remaining) && Normal(report.remainingRemove) &&
      c'.detected == report.remaining && c'.removed == report.remainingRemove && c'.mapping == c.mapping
  {
    hide Listed, Intersect, Subtract, Merged, ApplySelected, Local, Normal;
    var pa, pr := Normalize(c.detected), Normalize(c.removed);
    var a, g, sel := Intersect(add, pa), Intersect(ignore, pa), Intersect(remove, pr);
    NormalizeIsNormal(c.detected);
    NormalizeIsNormal(c.removed);
    IntersectIsNormal(add, pa);
    IntersectIsNormal(ignore, pa);
    IntersectIsNormal(remove, pr);
    SubtractIsNormal(sel, a);
    SubtractIsNormal(pa, a + g);
    SubtractIsNormal(pr, Subtract(sel, a));
    SelectedIff(add, c.detected, x);
    SelectedIff(ignore, c.detected, x);
    SelectedIff(remove, c.removed, x);
    NormalIsListed(a, x);
    NormalIsListed(g, x);
    NormalIsListed(sel, x);
    SubtractIff(sel, a, x);
    RemainsIff(c.detected, a, g, x);
    NormalIsListed(Subtract(sel, a), x);
    NormalizeKeeps(c.removed, x);
    NormalIsListed(pr, x);
    SubtractIff(pr, Subtract(sel, a), x);
    NextIgnoredIff(c, a, g, x);
  }

  lemma SelectedIff(wanted: seq<string>, pending: seq<string>, x: string)
    ensures x in Intersect(wanted, Normalize(pending)) <==> x != "" && Listed(wanted, x) && Listed(pending, x)
  {
    hide Listed;
    NormalizeIsNormal(pending);
    IntersectIff(wanted, Normalize(pending), x);
    NormalIsListed(Normalize(pending), x);
    NormalizeKeeps(pending, x);
  }

  lemma RemainsIff(pending: seq<string>, a: seq<string>, g: seq<string>, x: string)
    requires Normal(a) && Normal(g)
    ensures x in Subtract(Normalize(pending), a + g) <==> x != "" && Listed(pending, x) && x !in a && x !in g
  {
    hide Listed;
    NormalizeIsNormal(pending);
    NormalIsListed(Normalize(pending), x);
    NormalizeKeeps(pending, x);
    SubtractIff(Normalize(pending), a + g, x);
    ConcatNames(a, g, x);
    NormalizeKeeps(a + g, x);
  }

  lemma NextIgnoredIff(c: Channel, a: seq<string>, g: seq<string>, x: string)
    requires Normal(a) && Normal(g)
    ensures x in NextIgnoreList(c, a, g) <==> ((x != "" && Listed(c.ignored, x)) || x in g) && x !in a
  {
    hide Listed;
    NextIgnored(c, a, g, x);
    NormalizeKeeps(c.ignored, x);
  }

  lemma {:induction false} PiecesOfMixed(a: seq<string>, local: seq<string>, x: string)
    requires (forall y :: y in a ==> Tidy(y)) && CommaFree(local)
    ensures x in PiecesOf(a) <==> x in PiecesOf(Without(a, local)) || (x in a && x in local)
  {
    hide Tidy, Pieces, Trimmed;
    if a == [] {
      NoPieces();
    } else {
      var init, last := a[..|a| - 1], a[|a| - 1];
      assert a == init + [last];
      PiecesOfMixed(init, local, x);
      PiecesOfConcat(init, [last]);
      if last in local {
        OneIsNormal(last);
        PiecesOfCommaFree([last]);
      } else {
        PiecesOfConcat(Without(init, local), [last]);
      }
    }
  }

  lemma NoPieces()
    ensures PiecesOf([]) == []
  {
  }

  lemma OneIsNormal(x: string)
    requires Tidy(x)
    ensures Normal([x])
  {
  }

  /** The models that are served after an apply: those that were, without the removed
      ones, and the pieces of the added ones. */
  lemma ServedAfterApply(c: Channel, add: seq<string>, ignore: seq<string>, remove: seq<string>, x: string)
    ensures var (c', report) := Apply(c, add, ignore, remove);
      (x in Local(c') <==> (x in Local(c) && x !in report.removed) || x in PiecesOf(report.added)) &&
      (CommaFree(report.added) ==> PiecesOf(report.added) == report.added)
  {
    var (c', report) := Apply(c, add, ignore, remove);
    var a, r := report.added, report.removed;
    IntersectIsNormal(add, Normalize(c.detected));
    SubtractIsNormal(Intersect(remove, Normalize(c.removed)), a);
    NormalIsFixed(a);
    WithoutMembers(Normalize(Intersect(remove, Normalize(c.removed))), a);
    hide Intersect, Subtract, Normalize, Trimmed, Pieces, Fields, Join, Tidy;
    if CommaFree(a) {
      PiecesOfCommaFree(a);
    }
    LocalIsNormal(c);
    LocalIsCommaFree(c);
    NextModels(Local(c), a, r);
    NextServes(c, c', a, r, x);
  }

  lemma NextServes(c: Channel, c': Channel, a: seq<string>, r: seq<string>, x: string)
    requires Normal(a) && Normal(Local(c)) && CommaFree(Local(c)) && forall y :: y in r ==> y !in a
    requires c'.models == if Local(c) != Next(Local(c), a, r) then Join(Next(Local(c), a, r), ',') else c.models
    requires Normal(Next(Local(c), a, r))
    ensures x in Local(c') <==> (x in Local(c) && x !in r) || x in PiecesOf(a)
  {
    hide Local, Trimmed, Pieces, Join, Tidy, CommaFree;
    var kept, extra := Without(Local(c), r), Without(a, Local(c));
    var next := Next(Local(c), a, r);
    WithoutMembers(Local(c), r);
    WithoutMembers(a, Local(c));
    FilterConcat(Local(c), extra, y => y !in r);
    FilterAll(extra, y => y !in r);
    assert next == kept + extra;
    PiecesOfMixed(a, Local(c), x);
    KeptIsNormal(c, r);
    PiecesOfConcat(kept, extra);
    PiecesOfCommaFree(kept);
    if Local(c) != next {
      StoredNames(c', next);
      UniqMembers(PiecesOf(next));
    } else {
      PiecesOfCommaFree(next);
      SameModels(c, c');
    }
  }

  lemma SameModels(c: Channel, c': Channel)
    requires c'.models == c.models
    ensures Local(c') == Local(c)
  {
  }

  // ----- automatic adding, and the record that is updated in place -----

  /** `checkAndPersistChannelUpstreamModelUpdates` after a successful fetch. */
  function Sync(c: Channel, upstream: seq<string>, rx: Matcher, auto: bool): (Channel, nat) {
    var (adds, removes) := Pending(c, upstream, rx);
    if auto && |adds| > 0 then
      var merged := Merged(Local(c), adds);
      if |merged| > |Local(c)| then
        (c.(models := Join(merged, ','), detected := [], removed := removes), |merged| - |Local(c)|)
      else (c.(detected := [], removed := removes), 0)
    else (c.(detected := adds, removed := removes), 0)
  }

  /** An automatic sync adds every pending model. Nothing is left to add, and the
      pending removals are those it recorded, exactly when no name has a comma. */
  lemma AutoSyncReachesFixpoint(c: Channel, upstream: seq<string>, rx: Matcher)
    ensures var (c', autoAdded) := Sync(c, upstream, rx, true);
      var pa := Pending(c, upstream, rx).0;
      autoAdded == |pa| && (Pending(c', upstream, rx).0 == [] <==> CommaFree(pa)) &&
      (Pending(c', upstream, rx) == ([], c'.removed) <==> CommaFree(pa)) &&
      (CommaFree(pa) ==> Local(c') == Local(c) + pa) && c'.ignored == c.ignored && c'.mapping == c.mapping &&
      c'.detected == [] && c'.removed == Pending(c, upstream, rx).1
    ensures Sync(c, upstream, rx, false) == (Detect(c, upstream, rx), 0)
  {
    var pa := Adds(c, Normalize(upstream), rx);
    var c' := Sync(c, upstream, rx, true).0;
    PendingIsFiltered(c, upstream, rx);
    PendingIsFiltered(c', upstream, rx);
    LocalIsNormal(c);
    NormalIsFixed(Local(c));
    NormalForms(Local(c), pa);
    FilterAll(pa, x => x !in Local(c));
    assert Merged(Local(c), pa) == Local(c) + pa;
    if CommaFree(pa) {
      LocalAfterSync(c, c', pa);
      PendingAfterSync(c, c', Normalize(upstream), rx);
    } else {
      var x :| x in pa && ',' in x;
      LocalIsCommaFree(c');
      assert x in Pending(c', upstream, rx).0;
    }
  }

  lemma LocalAfterSync(c: Channel, c': Channel, pa: seq<string>)
    requires Normal(pa) && CommaFree(pa) && forall x :: x in pa ==> x !in Local(c)
    requires c'.models == if pa != [] then Join(Local(c) + pa, ',') else c.models
    ensures Local(c') == Local(c) + pa
  {
    LocalIsNormal(c);
    LocalIsCommaFree(c);
    ConcatNormal(Local(c), pa);
    if pa != [] {
      StoredNames(c', Local(c) + pa);
    }
  }

  lemma PendingAfterSync(c: Channel, c': Channel, up: seq<string>, rx: Matcher)
    requires c'.mapping == c.mapping && c'.ignored == c.ignored && Local(c') == Local(c) + Adds(c, up, rx)
    ensures Adds(c', up, rx) == [] && Removes(c', up) == Removes(c, up)
  {
    var pa, local := Adds(c, up, rx), Local(c);
    FilterMembers(up, x => IsPendingAdd(c, rx, x));
    forall x | x in up ensures !IsPendingAdd(c', rx, x) {
      assert x in local + pa <==> x in local || x in pa;
    }
    FilterNone(up, x => IsPendingAdd(c', rx, x));
    FilterConcat(local, pa, x => IsPendingRemove(c', up, x));
    FilterNone(pa, x => IsPendingRemove(c', up, x));
    FilterSame(local, x => IsPendingRemove(c', up, x), x => IsPendingRemove(c, up, x));
  }

  datatype Fetched = Models(names: seq<string>) | FetchFailed

  /** Whether saving the channel and rebuilding its abilities fail. */
  datatype Database = Database(saveFails: bool, abilitiesFail: bool)

  class ChannelRecord {
    var models: string
    var mapping: map<string, string>
    var ignored: seq<string>
    var detected: seq<string>
    var removed: seq<string>
    var lastCheck: int
    var autoSync: bool

    function Value(): Channel
      reads this
    {
      Channel(models, mapping, ignored, detected, removed)
    }

    /** `checkAndPersistChannelUpstreamModelUpdates` on the stored row: nothing is stored
        when saving fails, and an error of the ability table comes after saving. */
    method Check(fetched: Fetched, rx: Matcher, force: bool, allowAuto: bool, now: int, minInterval: int, db: Database)
      returns (changed: bool, autoAdded: nat, failed: bool)
      modifies this
      ensures autoSync == old(autoSync)
      ensures var skipped := !force && old(lastCheck) > 0 && now - old(lastCheck) < minInterval;
        lastCheck == (if skipped || db.saveFails then old(lastCheck) else now) &&
        if skipped then Value() == old(Value()) && autoAdded == 0 && !changed && !failed
        else if fetched.FetchFailed? then Value() == old(Value()) && autoAdded == 0 && !changed && failed
        else
          var (next, added) := Sync(old(Value()), fetched.names, rx, allowAuto && autoSync);
          && autoAdded == added && Value() == (if db.saveFails then old(Value()) else next)
          && changed == (added > 0 && !db.saveFails)
          && failed == (db.saveFails || (added > 0 && db.abilitiesFail))
    {
      hide Pending, Merged, Local;
      changed, autoAdded, failed := false, 0, false;
      if !force && lastCheck > 0 && now - lastCheck < minInterval {
        return;
      }
      if fetched.FetchFailed? {
        failed := true;
        if !db.saveFails {
          lastCheck := now;
        }
        return;
      }
      var (adds, removes) := Pending(Value(), fetched.names, rx);
      var nextModels, nextDetected := models, adds;
      if allowAuto && autoSync && |adds| > 0 {
        var origin := Local(Value());
        var merged := Merge(origin, adds);
        if |merged| > |origin| {
          nextModels := Join(merged, ',');
          autoAdded := |merged| - |origin|;
          changed := true;
        }
        nextDetected := [];
      }
      if db.saveFails {
        changed, failed := false, true;
        return;
      }
      models, detected, removed, lastCheck := nextModels, nextDetected, removes, now;
      failed := changed && db.abilitiesFail;
    }

    /** `applyChannelUpstreamModelUpdates` on the stored row; `None` when saving fails. */
    method ApplyUpdates(add: seq<string>, ignore: seq<string>, remove: seq<string>, now: int, db: Database)
      returns (report: Option<Report>, failed: bool)
      modifies this
      ensures autoSync == old(autoSync)
      ensures db.saveFails ==> report == None && failed && Value() == old(Value()) && lastCheck == old(lastCheck)
      ensures !db.saveFails ==> report.Some? && (Value(), report.value) == Apply(old(Value()), add, ignore, remove)
      ensures !db.saveFails ==> lastCheck == now && failed == (report.value.changed && db.abilitiesFail)
    {
      hide Normalize, Intersect, Subtract, Merged, ApplySelected, Local;
      var pendingAdd, pendingRemove := Normalize(detected), Normalize(removed);
      var a := Intersect(add, pendingAdd);
      var g := Intersect(ignore, pendingAdd);
      var r := Subtract(Intersect(remove, pendingRemove), a);
      var origin := Local(Value());
      var next := ApplySelected(origin, a, r);
      var changed := origin != next;
      var nextIgnored := Merge(ignored, g);
      if |a| > 0 {
        nextIgnored := Subtract(nextIgnored, a);
      }
      var remaining, remainingRemove := Subtract(pendingAdd, a + g), Subtract(pendingRemove, r);
      if db.saveFails {
        return None, true;
      }
      if changed {
        models := Join(next, ',');
      }
      ignored, detected, removed, lastCheck := nextIgnored, remaining, remainingRemove, now;
      return Some(Report(a, r, remaining, remainingRemove, changed)), changed && db.abilitiesFail;
    }
  }
}
