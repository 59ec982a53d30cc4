/** The share half of src/microfastapitodowebapp/util/todo_form_helper.py:
    `create_shares_from_form`, which shares a new todo with every address of the form, and
    `sync_shares_from_form`, which reconciles the upstream's shares of a todo with the form.
    The upstream (src/microfastapitodowebapp/service/share.py) is a map from address to
    access level; each of its calls may fail on its own, and a failed call changes nothing. */
module ShareSync {
  import opened Base
  import Text
  import FormHelper

  /** One address and access level of the form, after cleaning. */
  datatype Share = Share(email: string, level: int)

  /** The access level the reconciliation leaves alone. */
  const ExcludedLevel := 3

  /** A call made to the upstream and whether it succeeded. */
  datatype Call =
    | GetCall(ok: bool)
    | PutCall(email: string, level: int, ok: bool)
    | DeleteCall(email: string, ok: bool)

  /** The upstream share service of one todo, with the log of the calls made to it. */
  class ShareService {
    var shares: map<string, int>
    var calls: seq<Call>

    constructor (initial: map<string, int>)
      ensures shares == initial && calls == []
    {
      shares := initial;
      calls := [];
    }

    /** `get_todo_shares`: the current shares, or None when the call fails. */
    method GetTodoShares() returns (current: Option<map<string, int>>)
      modifies this
      ensures shares == old(shares)
      ensures calls == old(calls) + [GetCall(current.Some?)]
      ensures current.Some? ==> current.value == shares
    {
      var ok :| true;
      calls := calls + [GetCall(ok)];
      current := if ok then Some(shares) else None;
    }

    /** `create_todo_share`: PUT of one address at one level. */
    method CreateTodoShare(email: string, level: int) returns (ok: bool)
      modifies this
      ensures calls == old(calls) + [PutCall(email, level, ok)]
      ensures shares == if ok then old(shares)[email := level] else old(shares)
    {
      ok :| true;
      calls := calls + [PutCall(email, level, ok)];
      if ok {
        shares := shares[email := level];
      }
    }

    /** `delete_todo_share`: DELETE of one address. */
    method DeleteTodoShare(email: string) returns (ok: bool)
      modifies this
      ensures calls == old(calls) + [DeleteCall(email, ok)]
      ensures shares == if ok then old(shares) - {email} else old(shares)
    {
      ok :| true;
      calls := calls + [DeleteCall(email, ok)];
      if ok {
        shares := shares - {email};
      }
    }
  }

  /** `xs[1:]` when `skip_first` is set. */
  function SkipFirst<T>(xs: seq<T>, skip: bool): (r: seq<T>)
    ensures skip && xs != [] ==> r == xs[1..]
    ensures !skip || xs == [] ==> r == xs
  {
    if skip && xs != [] then xs[1..] else xs
  }

  function Min(a: int, b: int): int {
    if a < b then a else b
  }

  /** `(email or "").strip()` for every address of the form. */
  function Cleaned(emails: seq<string>): (r: seq<string>)
    ensures |r| == |emails|
  {
    if emails == [] then []
    else Cleaned(emails[..|emails| - 1]) + [Text.Strip(emails[|emails| - 1])]
  }

  /** Each cleaned address is its form address stripped. */
  lemma {:induction false} CleanedAt(emails: seq<string>, i: int)
    requires 0 <= i < |emails|
    ensures Cleaned(emails)[i] == Text.Strip(emails[i])
  {
    if i < |emails| - 1 {
      CleanedAt(emails[..|emails| - 1], i);
    }
  }

  /** The first `n` positions of `zip(cleaned, levels)` without the blank addresses, in
      form order. */
  function PairsUpTo(cleaned: seq<string>, levels: seq<int>, n: nat): (r: seq<Share>)
    requires n <= |cleaned| && n <= |levels|
    ensures |r| <= n
    ensures forall i :: 0 <= i < |r| ==> r[i].email != ""
  {
    if n == 0 then []
    else
      PairsUpTo(cleaned, levels, n - 1)
      + (if cleaned[n - 1] == "" then [] else [Share(cleaned[n - 1], levels[n - 1])])
  }

  /** `zip(cleaned, levels)` without the blank addresses: the shares the form asks for. The
      zip stops at the shorter list. */
  function Pairs(cleaned: seq<string>, levels: seq<int>): seq<Share> {
    PairsUpTo(cleaned, levels, Min(|cleaned|, |levels|))
  }

  /** The shares the form asks for, after `normalize_list`, `skip_first` and the cleaning. */
  function FormPairs(sharesEmail: Option<seq<string>>, sharesAccessLevel: Option<seq<int>>, skip: bool)
    : seq<Share>
  {
    Pairs(Cleaned(SkipFirst(FormHelper.NormalizeList(sharesEmail), skip)),
          SkipFirst(FormHelper.NormalizeList(sharesAccessLevel), skip))
  }

  /** The addresses of a list of shares. */
  function Emails(pairs: seq<Share>): set<string> {
    set i | 0 <= i < |pairs| :: pairs[i].email
  }

  /** Whether no later share of the list repeats the address of the share at `i`. */
  predicate LastFor(pairs: seq<Share>, i: int)
    requires 0 <= i < |pairs|
  {
    forall j :: i < j < |pairs| ==> pairs[j].email != pairs[i].email
  }

  /** `m` with every share of the list written in order. */
  function Upsert(m: map<string, int>, pairs: seq<Share>): map<string, int> {
    if pairs == [] then m
    else Upsert(m, pairs[..|pairs| - 1])[pairs[|pairs| - 1].email := pairs[|pairs| - 1].level]
  }

  /** Writing the shares adds exactly their addresses. */
  lemma {:induction false} UpsertKeys(m: map<string, int>, pairs: seq<Share>)
    ensures Upsert(m, pairs).Keys == m.Keys + Emails(pairs)
  {
    if pairs != [] {
      var init := pairs[..|pairs| - 1];
      UpsertKeys(m, init);
      assert Emails(pairs) == Emails(init) + {pairs[|pairs| - 1].email} by {
        assert forall i :: 0 <= i < |init| ==> init[i] == pairs[i];
      }
    }
  }

  /** An address no share of the list mentions keeps its level. */
  lemma {:induction false} UpsertKeepsOthers(m: map<string, int>, pairs: seq<Share>, k: string)
    requires k in m && k !in Emails(pairs)
    ensures k in Upsert(m, pairs) && Upsert(m, pairs)[k] == m[k]
  {
    if pairs != [] {
      var init := pairs[..|pairs| - 1];
      assert k !in Emails(init) by {
        assert forall i :: 0 <= i < |init| ==> init[i] == pairs[i];
      }
      assert k != pairs[|pairs| - 1].email;
      UpsertKeepsOthers(m, init, k);
    }
  }

  /** A later share of an address overrides an earlier one: each address ends at the level
      of its last share in the list. */
  lemma {:induction false} UpsertLastWins(m: map<string, int>, pairs: seq<Share>, i: int)
    requires 0 <= i < |pairs| && LastFor(pairs, i)
    ensures pairs[i].email in Upsert(m, pairs) && Upsert(m, pairs)[pairs[i].email] == pairs[i].level
  {
    var init := pairs[..|pairs| - 1];
    if i < |pairs| - 1 {
      assert LastFor(init, i);
      UpsertLastWins(m, init, i);
      assert init[i] == pairs[i];
    }
  }

  /** Writing one more share is one more map update. */
  lemma UpsertSnoc(m: map<string, int>, pairs: seq<Share>, p: Share)
    ensures Upsert(m, pairs + [p]) == Upsert(m, pairs)[p.email := p.level]
  {
    assert (pairs + [p])[..|pairs|] == pairs;
  }

  /** One more position of the zip written into the target map. */
  lemma TargetStep(cleaned: seq<string>, levels: seq<int>, i: nat, target: map<string, int>)
    requires i < |cleaned| && i < |levels|
    requires target == Upsert(map[], PairsUpTo(cleaned, levels, i))
    ensures Upsert(map[], PairsUpTo(cleaned, levels, i + 1))
            == if cleaned[i] == "" then target else target[cleaned[i] := levels[i]]
  {
    var pairs := PairsUpTo(cleaned, levels, i);
    if cleaned[i] == "" {
      assert PairsUpTo(cleaned, levels, i + 1) == pairs;
    } else {
      UpsertSnoc(map[], pairs, Share(cleaned[i], levels[i]));
    }
  }

  /** The loop that fills `target_shares_map`. */
  method BuildTargetMap(emails: seq<string>, levels: seq<int>) returns (target: map<string, int>)
    ensures target == Upsert(map[], Pairs(Cleaned(emails), levels))
  {
    ghost var cleaned := Cleaned(emails);
    target := map[];
    var n := Min(|emails|, |levels|);
    for i := 0 to n
      invariant target == Upsert(map[], PairsUpTo(cleaned, levels, i))
    {
      var cleanEmail := Text.Strip(emails[i]);
      CleanedAt(emails, i);
      TargetStep(cleaned, levels, i, target);
      if cleanEmail != "" {
        target := target[cleanEmail := levels[i]];
      }
    }
  }

  /** The calls made since the log held `before`. */
  predicate Extends(calls: seq<Call>, before: seq<Call>) {
    |before| <= |calls| && calls[..|before|] == before
  }

  /** Every call of the list succeeded. */
  predicate AllOk(calls: seq<Call>) {
    forall i :: 0 <= i < |calls| ==> calls[i].ok
  }

  /** The calls are one PUT per share, in order. */
  predicate PutsFor(pairs: seq<Share>, calls: seq<Call>) {
    |calls| == |pairs|
    && forall i :: 0 <= i < |calls| ==>
         calls[i].PutCall? && calls[i].email == pairs[i].email && calls[i].level == pairs[i].level
  }

  /** A log grows by appending; stated once so the loops need not prove it by extensionality. */
  lemma AppendAssoc<T>(a: seq<T>, b: seq<T>, c: seq<T>)
    ensures a + (b + c) == (a + b) + c
  {
  }

  lemma PutsForSnoc(pairs: seq<Share>, calls: seq<Call>, p: Share, ok: bool)
    requires PutsFor(pairs, calls)
    ensures PutsFor(pairs + [p], calls + [PutCall(p.email, p.level, ok)])
  {
  }

  /** One more call keeps the log successful exactly when that call succeeded. */
  lemma AllOkSnoc(calls: seq<Call>, c: Call)
    ensures AllOk(calls + [c]) <==> AllOk(calls) && c.ok
  {
    AllOkAppend(calls, [c]);
    assert [c][0] == c;
  }

  /** Two logs together succeeded exactly when each did. */
  lemma AllOkAppend(a: seq<Call>, b: seq<Call>)
    ensures AllOk(a + b) <==> AllOk(a) && AllOk(b)
  {
    if AllOk(a + b) {
      assert forall i :: 0 <= i < |a| ==> (a + b)[i] == a[i];
      assert forall i :: 0 <= i < |b| ==> (a + b)[|a| + i] == b[i];
    }
  }

  /** One more PUT keeps the loop's account of the log and of the shares. */
  lemma PutStep(s0: map<string, int>, pairs: seq<Share>, issued: seq<Call>, shares: map<string, int>,
                ok: bool, p: Share, created: bool)
    requires PutsFor(pairs, issued)
    requires ok <==> AllOk(issued)
    requires ok ==> shares == Upsert(s0, pairs)
    ensures PutsFor(pairs + [p], issued + [PutCall(p.email, p.level, created)])
    ensures ok && created <==> AllOk(issued + [PutCall(p.email, p.level, created)])
    ensures ok && created ==> shares[p.email := p.level] == Upsert(s0, pairs + [p])
  {
    UpsertSnoc(s0, pairs, p);
    PutsForSnoc(pairs, issued, p, created);
    AllOkSnoc(issued, PutCall(p.email, p.level, created));
  }

  /** The loop of `create_shares_from_form`: one PUT per cleaned share, in form order, each
      attempted whatever became of the ones before. */
  method PutShares(service: ShareService, emails: seq<string>, levels: seq<int>) returns (ok: bool)
    modifies service
    ensures Extends(service.calls, old(service.calls))
    ensures PutsFor(Pairs(Cleaned(emails), levels), service.calls[|old(service.calls)|..])
    ensures ok <==> AllOk(service.calls[|old(service.calls)|..])
    ensures ok ==> service.shares == Upsert(old(service.shares), Pairs(Cleaned(emails), levels))
  {
    ghost var c0 := service.calls;
    ghost var s0 := service.shares;
    ghost var issued: seq<Call> := [];
    ghost var pairs: seq<Share> := [];
    ghost var cleaned := Cleaned(emails);
    ok := true;
    var n := Min(|emails|, |levels|);
    for i := 0 to n
      invariant service.calls == c0 + issued
      invariant pairs == PairsUpTo(cleaned, levels, i)
      invariant PutsFor(pairs, issued)
      invariant ok <==> AllOk(issued)
      invariant ok ==> service.shares == Upsert(s0, pairs)
    {
      var cleanEmail := Text.Strip(emails[i]);
      CleanedAt(emails, i);
      if cleanEmail != "" {
        ghost var before := service.shares;
        var created := service.CreateTodoShare(cleanEmail, levels[i]);
        ghost var call := PutCall(cleanEmail, levels[i], created);
        PutStep(s0, pairs, issued, before, ok, Share(cleanEmail, levels[i]), created);
        AppendAssoc(c0, issued, [call]);
        issued := issued + [call];
        pairs := pairs + [Share(cleanEmail, levels[i])];
        ok := ok && created;
      } else {
        assert pairs + [] == pairs;
      }
    }
    assert service.calls[|c0|..] == issued;
  }

  /** `create_shares_from_form`: the lists after `normalize_list` and `skip_first`; nothing
      to share, when either list is then empty, is a success without any call. */
  method CreateSharesFromForm(service: ShareService, sharesEmail: Option<seq<string>>,
                              sharesAccessLevel: Option<seq<int>>, skipFirst: bool)
    returns (ok: bool)
    modifies service
    ensures Extends(service.calls, old(service.calls))
    ensures PutsFor(FormPairs(sharesEmail, sharesAccessLevel, skipFirst),
                    service.calls[|old(service.calls)|..])
    ensures ok <==> AllOk(service.calls[|old(service.calls)|..])
    ensures ok ==> service.shares == Upsert(old(service.shares), FormPairs(sharesEmail, sharesAccessLevel, skipFirst))
  {
    var emails := FormHelper.NormalizeList(sharesEmail);
    var levels := FormHelper.NormalizeList(sharesAccessLevel);
    if skipFirst {
      emails := if emails == [] then [] else emails[1..];
      levels := if levels == [] then [] else levels[1..];
    }
    if emails == [] || levels == [] {
      assert service.calls[|service.calls|..] == [];
      return true;
    }
    ok := PutShares(service, emails, levels);
  }

  // ---------------------------------------------------------------------------------------
  // `sync_shares_from_form`

  /** `current_shares_map`: the upstream's shares without those at the excluded level. */
  function Compared(s: map<string, int>): map<string, int> {
    map k | k in s && s[k] != ExcludedLevel :: s[k]
  }

  /** `emails_to_delete`: compared addresses the form no longer lists. */
  function Deletes(s: map<string, int>, t: map<string, int>): set<string> {
    Compared(s).Keys - t.Keys
  }

  /** `emails_to_add`: addresses of the form not among the compared ones. */
  function Adds(s: map<string, int>, t: map<string, int>): set<string> {
    t.Keys - Compared(s).Keys
  }

  /** The addresses of `emails_to_check` whose level the form changes. */
  function Changes(s: map<string, int>, t: map<string, int>): set<string> {
    Differing(Checks(s, t), t, Compared(s))
  }

  /** `emails_to_check`: the addresses both in the form and among the compared ones. */
  function Checks(s: map<string, int>, t: map<string, int>): set<string> {
    t.Keys * Compared(s).Keys
  }

  /** The shares the reconciliation aims at: the form's shares at the form's levels, plus the
      shares at the excluded level that the form does not mention, and nothing else. */
  function SyncedShares(s: map<string, int>, t: map<string, int>): map<string, int> {
    map k | k in t.Keys + s.Keys && (k in t || s[k] == ExcludedLevel) :: if k in t then t[k] else s[k]
  }

  /** `m` with the addresses `ks` set to their level in `t`. */
  function Overwrite(m: map<string, int>, t: map<string, int>, ks: set<string>): map<string, int>
    requires ks <= t.Keys
  {
    map k | k in m.Keys + ks :: if k in ks then t[k] else m[k]
  }

  /** The addresses of `emails` whose level differs between `t` and `cur`. */
  function Differing(emails: set<string>, t: map<string, int>, cur: map<string, int>): set<string> {
    set k | k in emails && k in t && k in cur && t[k] != cur[k]
  }

  /** Whether two share maps say the same about `k`. */
  predicate Agree(a: map<string, int>, b: map<string, int>, k: string) {
    (k in a <==> k in b) && (k in a ==> a[k] == b[k])
  }

  /** The elements of a list. */
  function Elems(order: seq<string>): set<string> {
    set x | x in order
  }

  /** `order` lists every address of `emails` exactly once: one iteration of a Python set. */
  predicate Enumerates(order: seq<string>, emails: set<string>) {
    && (forall i, j :: 0 <= i < j < |order| ==> order[i] != order[j])
    && Elems(order) == emails
  }

  /** The calls are one DELETE per address of `order`, in order. */
  predicate DeleteLog(calls: seq<Call>, order: seq<string>) {
    |calls| == |order| && forall i :: 0 <= i < |calls| ==> calls[i] == DeleteCall(order[i], calls[i].ok)
  }

  /** The calls are one PUT per address of `order`, at its level in `t`, in order. */
  predicate PutLog(calls: seq<Call>, order: seq<string>, t: map<string, int>) {
    && |calls| == |order|
    && forall i :: 0 <= i < |calls| ==>
         order[i] in t && calls[i] == PutCall(order[i], t[order[i]], calls[i].ok)
  }

  /** The calls the level check makes for the address `e`: none when its level is
      unchanged; otherwise a DELETE and, only when that DELETE succeeded, a PUT at the new
      level. */
  predicate CheckCalls(c: seq<Call>, e: string, t: map<string, int>, cur: map<string, int>) {
    && e in t && e in cur
    && if t[e] == cur[e] then c == []
       else
         || c == [DeleteCall(e, false)]
         || (|c| == 2 && c[0] == DeleteCall(e, true) && c[1] == PutCall(e, t[e], c[1].ok))
  }

  /** The calls of the groups, one group after the other. */
  function Flatten(groups: seq<seq<Call>>): seq<Call> {
    if groups == [] then [] else Flatten(groups[..|groups| - 1]) + groups[|groups| - 1]
  }

  /** The calls of the level check, address by address along `order`. */
  predicate ChangeLog(groups: seq<seq<Call>>, order: seq<string>, t: map<string, int>, cur: map<string, int>) {
    |groups| == |order| && forall i :: 0 <= i < |groups| ==> CheckCalls(groups[i], order[i], t, cur)
  }

  /** One more group of calls is appended at the end. */
  lemma FlattenSnoc(groups: seq<seq<Call>>, g: seq<Call>)
    ensures Flatten(groups + [g]) == Flatten(groups) + g
  {
    assert (groups + [g])[..|groups|] == groups;
  }

  /** The three sets of the plan split the addresses: every form address is added or
      checked, every compared address is deleted or checked, no address is in two sets, and
      only checked addresses change level. */
  lemma PlanPartitions(s: map<string, int>, t: map<string, int>)
    ensures Deletes(s, t) !! Adds(s, t) && Deletes(s, t) !! Checks(s, t) && Adds(s, t) !! Checks(s, t)
    ensures Adds(s, t) + Checks(s, t) == t.Keys
    ensures Deletes(s, t) + Checks(s, t) == Compared(s).Keys
    ensures Changes(s, t) <= Checks(s, t)
    ensures forall k :: k in Compared(s) <==> k in s && s[k] != ExcludedLevel
  {
  }

  /** Carrying out the plan in source order (the deletes, then the adds, then the level
      changes) reaches the intended shares. */
  lemma PlanReachesSynced(s: map<string, int>, t: map<string, int>)
    ensures Adds(s, t) <= t.Keys && Changes(s, t) <= t.Keys
    ensures Overwrite(Overwrite(s - Deletes(s, t), t, Adds(s, t)), t, Changes(s, t)) == SyncedShares(s, t)
  {
    var afterDelete := s - Deletes(s, t);
    var afterAdd := Overwrite(afterDelete, t, Adds(s, t));
    var r := Overwrite(afterAdd, t, Changes(s, t));
    var want := SyncedShares(s, t);
    forall k | k in r
      ensures k in want && r[k] == want[k]
    {
    }
    forall k | k in want
      ensures k in r
    {
    }
  }

  /** The intended shares meet the promises of the reconciliation: every address of the
      form at its form level, every compared address the form drops removed, and every share
      at the excluded level that the form does not mention kept. */
  lemma SyncedSharesMeetsForm(s: map<string, int>, t: map<string, int>)
    ensures forall k :: k in t ==> k in SyncedShares(s, t) && SyncedShares(s, t)[k] == t[k]
    ensures forall k :: k in Deletes(s, t) ==> k !in SyncedShares(s, t)
    ensures forall k :: k in s && s[k] == ExcludedLevel && k !in t ==>
              k in SyncedShares(s, t) && SyncedShares(s, t)[k] == ExcludedLevel
    ensures SyncedShares(s, t).Keys == t.Keys + (s.Keys - Compared(s).Keys)
  {
  }

  /** A form that drops `a`, moves `b` from level 2 to 3 and adds `c`, against an upstream
      that also holds `x` at the excluded level: `a` is deleted, `c` added, `b` changed, and
      `x` survives. */
  lemma SyncPlanExample()
    ensures var s := map["a" := 1, "b" := 2, "x" := ExcludedLevel];
      var t := map["b" := 3, "c" := 1];
      && Deletes(s, t) == {"a"}
      && Adds(s, t) == {"c"}
      && Changes(s, t) == {"b"}
      && SyncedShares(s, t) == map["b" := 3, "c" := 1, "x" := ExcludedLevel]
  {
    var s := map["a" := 1, "b" := 2, "x" := ExcludedLevel];
    var t := map["b" := 3, "c" := 1];
    assert Compared(s) == map["a" := 1, "b" := 2];
    assert Checks(s, t) == {"b"};
  }

  /** Deleting one more address. */
  lemma RemoveOneMore(m: map<string, int>, done: set<string>, e: string)
    ensures m - (done + {e}) == (m - done) - {e}
  {
  }

  /** Overwriting one more address. */
  lemma OverwriteOneMore(m: map<string, int>, t: map<string, int>, done: set<string>, e: string)
    requires done <= t.Keys && e in t
    ensures Overwrite(m, t, done + {e}) == Overwrite(m, t, done)[e := t[e]]
  {
  }

  /** One more address enumerated. */
  lemma EnumeratesOneMore(order: seq<string>, done: set<string>, e: string)
    requires Enumerates(order, done) && e !in done
    ensures Enumerates(order + [e], done + {e})
  {
    assert Elems(order + [e]) == Elems(order) + {e};
  }

  /** Checking one more address adds it to the differing ones exactly when its level
      differs. */
  lemma DifferingOneMore(done: set<string>, e: string, t: map<string, int>, cur: map<string, int>)
    requires e in t && e in cur
    ensures Differing(done + {e}, t, cur) == Differing(done, t, cur) + (if t[e] != cur[e] then {e} else {})
  {
  }

  /** The first loop of the reconciliation: one DELETE per address, in some order, each
      attempted whatever became of the ones before. */
  method DeleteShares(service: ShareService, emails: set<string>) returns (ok: bool, ghost order: seq<string>)
    modifies service
    ensures Extends(service.calls, old(service.calls))
    ensures Enumerates(order, emails)
    ensures DeleteLog(service.calls[|old(service.calls)|..], order)
    ensures ok <==> AllOk(service.calls[|old(service.calls)|..])
    ensures ok ==> service.shares == old(service.shares) - emails
    ensures forall k :: k !in emails ==> Agree(old(service.shares), service.shares, k)
  {
    ghost var c0 := service.calls;
    ghost var s0 := service.shares;
    ghost var issued: seq<Call> := [];
    ghost var done: set<string> := {};
    order := [];
    ok := true;
    var remaining := emails;
    while remaining != {}
      invariant done + remaining == emails && done !! remaining
      invariant service.calls == c0 + issued
      invariant Enumerates(order, done)
      invariant DeleteLog(issued, order)
      invariant ok <==> AllOk(issued)
      invariant ok ==> service.shares == s0 - done
      invariant forall k :: k !in done ==> Agree(s0, service.shares, k)
      decreases remaining
    {
      var email :| email in remaining;
      var deleted := service.DeleteTodoShare(email);
      AllOkSnoc(issued, DeleteCall(email, deleted));
      AppendAssoc(c0, issued, [DeleteCall(email, deleted)]);
      EnumeratesOneMore(order, done, email);
      RemoveOneMore(s0, done, email);
      issued := issued + [DeleteCall(email, deleted)];
      order := order + [email];
      done := done + {email};
      remaining := remaining - {email};
      if !deleted {
        ok := false;
      }
    }
    assert service.calls[|c0|..] == issued;
  }

  /** The second loop: one PUT per address at its level in `target`, in some order, each
      attempted whatever became of the ones before. */
  method AddShares(service: ShareService, emails: set<string>, target: map<string, int>)
    returns (ok: bool, ghost order: seq<string>)
    requires emails <= target.Keys
    modifies service
    ensures Extends(service.calls, old(service.calls))
    ensures Enumerates(order, emails)
    ensures PutLog(service.calls[|old(service.calls)|..], order, target)
    ensures ok <==> AllOk(service.calls[|old(service.calls)|..])
    ensures ok ==> service.shares == Overwrite(old(service.shares), target, emails)
    ensures forall k :: k !in emails ==> Agree(old(service.shares), service.shares, k)
  {
    ghost var c0 := service.calls;
    ghost var s0 := service.shares;
    ghost var issued: seq<Call> := [];
    ghost var done: set<string> := {};
    order := [];
    ok := true;
    var remaining := emails;
    while remaining != {}
      invariant done + remaining == emails && done !! remaining
      invariant service.calls == c0 + issued
      invariant Enumerates(order, done)
      invariant PutLog(issued, order, target)
      invariant ok <==> AllOk(issued)
      invariant ok ==> service.shares == Overwrite(s0, target, done)
      invariant forall k :: k !in done ==> Agree(s0, service.shares, k)
      decreases remaining
    {
      var email :| email in remaining;
      var level := target[email];
      var created := service.CreateTodoShare(email, level);
      AllOkSnoc(issued, PutCall(email, level, created));
      AppendAssoc(c0, issued, [PutCall(email, level, created)]);
      EnumeratesOneMore(order, done, email);
      OverwriteOneMore(s0, target, done, email);
      issued := issued + [PutCall(email, level, created)];
      order := order + [email];
      done := done + {email};
      remaining := remaining - {email};
      if !created {
        ok := false;
      }
    }
    assert service.calls[|c0|..] == issued;
  }

  /** The body of the third loop for one address of `emails_to_check`: nothing when the
      level is unchanged; otherwise a DELETE and, when it succeeded, a PUT at the new level. */
  method CheckLevel(service: ShareService, email: string, target: map<string, int>, current: map<string, int>)
    returns (ok: bool, ghost calls: seq<Call>)
    requires email in target && email in current
    modifies service
    ensures service.calls == old(service.calls) + calls
    ensures CheckCalls(calls, email, target, current)
    ensures ok <==> AllOk(calls)
    ensures ok && target[email] != current[email] ==> service.shares == old(service.shares)[email := target[email]]
    ensures target[email] == current[email] ==> service.shares == old(service.shares)
    ensures forall k :: k != email ==> Agree(old(service.shares), service.shares, k)
  {
    var newLevel := target[email];
    var oldLevel := current[email];
    ok := true;
    calls := [];
    if newLevel != oldLevel {
      var deleted := service.DeleteTodoShare(email);
      calls := [DeleteCall(email, deleted)];
      if deleted {
        var created := service.CreateTodoShare(email, newLevel);
        calls := calls + [PutCall(email, newLevel, created)];
        ok := created;
        assert calls[0].ok && calls[1].ok == created;
      } else {
        ok := false;
        assert !calls[0].ok;
      }
    }
  }

  /** The third loop, over `emails_to_check`: each address whose level differs between
      `target` and `current` is deleted and, when the delete succeeded, put back at its new
      level; a failed delete skips the put. */
  method ChangeLevels(service: ShareService, emails: set<string>, target: map<string, int>,
                      current: map<string, int>)
    returns (ok: bool, ghost order: seq<string>, ghost groups: seq<seq<Call>>)
    requires emails <= target.Keys && emails <= current.Keys
    modifies service
    ensures Extends(service.calls, old(service.calls))
    ensures Enumerates(order, emails)
    ensures ChangeLog(groups, order, target, current)
    ensures service.calls[|old(service.calls)|..] == Flatten(groups)
    ensures ok <==> AllOk(service.calls[|old(service.calls)|..])
    ensures ok ==> service.shares == Overwrite(old(service.shares), target, Differing(emails, target, current))
    ensures forall k :: k !in Differing(emails, target, current) ==> Agree(old(service.shares), service.shares, k)
  {
    ghost var c0 := service.calls;
    ghost var s0 := service.shares;
    ghost var issued: seq<Call> := [];
    ghost var done: set<string> := {};
    order := [];
    groups := [];
    ok := true;
    var remaining := emails;
    while remaining != {}
      invariant done + remaining == emails && done !! remaining
      invariant service.calls == c0 + issued
      invariant Enumerates(order, done)
      invariant ChangeLog(groups, order, target, current)
      invariant issued == Flatten(groups)
      invariant ok <==> AllOk(issued)
      invariant ok ==> service.shares == Overwrite(s0, target, Differing(done, target, current))
      invariant forall k :: k !in Differing(done, target, current) ==> Agree(s0, service.shares, k)
      decreases remaining
    {
      var email :| email in remaining;
      ghost var mid := service.shares;
      var checked, chunk := CheckLevel(service, email, target, current);
      forall k | k !in Differing(done + {email}, target, current)
        ensures Agree(s0, service.shares, k)
      {
        assert Agree(s0, mid, k);
        assert Agree(mid, service.shares, k);
      }
      FlattenSnoc(groups, chunk);
      AllOkAppend(issued, chunk);
      AppendAssoc(c0, issued, chunk);
      EnumeratesOneMore(order, done, email);
      DifferingOneMore(done, email, target, current);
      ghost var d0 := Differing(done, target, current);
      ghost var d1 := Differing(done + {email}, target, current);
      if ok && checked {
        if target[email] != current[email] {
          OverwriteOneMore(s0, target, d0, email);
          assert service.shares == Overwrite(s0, target, d1);
        } else {
          assert d1 == d0;
        }
      }
      issued := issued + chunk;
      order := order + [email];
      groups := groups + [chunk];
      done := done + {email};
      remaining := remaining - {email};
      if !checked {
        ok := false;
      }
    }
    assert service.calls[|c0|..] == issued;
  }

  /** The calls of the reconciliation after the fetch: the deletes along `deleted`, the adds
      along `added`, then the level check along `checked`, each loop enumerating its set. */
  predicate SyncLog(log: seq<Call>, s: map<string, int>, t: map<string, int>,
                    deleted: seq<string>, added: seq<string>, checked: seq<string>, groups: seq<seq<Call>>)
  {
    && Enumerates(deleted, Deletes(s, t))
    && Enumerates(added, Adds(s, t))
    && Enumerates(checked, Checks(s, t))
    && |deleted| + |added| <= |log|
    && DeleteLog(log[..|deleted|], deleted)
    && PutLog(log[|deleted|..|deleted| + |added|], added, t)
    && ChangeLog(groups, checked, t, Compared(s))
    && log[|deleted| + |added|..] == Flatten(groups)
  }

  /** A log that grew by three runs splits into those runs. */
  lemma LogSplit(c1: seq<Call>, c2: seq<Call>, c3: seq<Call>, c4: seq<Call>)
    requires Extends(c2, c1) && Extends(c3, c2) && Extends(c4, c3)
    ensures Extends(c4, c1)
    ensures c4[|c1|..] == c2[|c1|..] + c3[|c2|..] + c4[|c3|..]
    ensures var log := c4[|c1|..];
      && log[..|c2| - |c1|] == c2[|c1|..]
      && log[|c2| - |c1|..|c3| - |c1|] == c3[|c2|..]
      && log[|c3| - |c1|..] == c4[|c3|..]
  {
    assert c4[..|c3|] == c3;
    assert c3[..|c2|] == c2;
    assert c4[..|c2|] == c2;
    assert c4[..|c1|] == c1 by {
      assert c4[..|c1|] == c3[..|c1|] == c2[..|c1|];
    }
  }

  /** What two maps agree on, a third agreeing with the second agrees on too. */
  lemma AgreeTrans(a: map<string, int>, b: map<string, int>, c: map<string, int>, k: string)
    requires Agree(a, b, k) && Agree(b, c, k)
    ensures Agree(a, c, k)
  {
  }

  /** The three loops of the reconciliation, run once the current shares `current` (the
      compared part of the upstream's shares) are known. */
  method Reconcile(service: ShareService, target: map<string, int>, current: map<string, int>)
    returns (ok: bool, ghost deleted: seq<string>, ghost added: seq<string>, ghost checked: seq<string>,
             ghost groups: seq<seq<Call>>)
    requires current == Compared(service.shares)
    modifies service
    ensures Extends(service.calls, old(service.calls))
    ensures SyncLog(service.calls[|old(service.calls)|..], old(service.shares), target, deleted, added, checked, groups)
    ensures ok <==> AllOk(service.calls[|old(service.calls)|..])
    ensures ok ==> service.shares == SyncedShares(old(service.shares), target)
    ensures forall k :: k !in Deletes(old(service.shares), target) + Adds(old(service.shares), target)
                                + Changes(old(service.shares), target) ==>
              Agree(old(service.shares), service.shares, k)
  {
    ghost var c1 := service.calls;
    ghost var s1 := service.shares;
    var toDelete := current.Keys - target.Keys;
    var toAdd := target.Keys - current.Keys;
    var toCheck := target.Keys * current.Keys;
    var deletesOk, addsOk, checksOk;
    deletesOk, deleted := DeleteShares(service, toDelete);
    ghost var c2 := service.calls;
    ghost var s2 := service.shares;
    addsOk, added := AddShares(service, toAdd, target);
    ghost var c3 := service.calls;
    ghost var s3 := service.shares;
    checksOk, checked, groups := ChangeLevels(service, toCheck, target, current);
    ok := deletesOk && addsOk && checksOk;
    LogSplit(c1, c2, c3, service.calls);
    AllOkAppend(c2[|c1|..], c3[|c2|..]);
    AllOkAppend(c2[|c1|..] + c3[|c2|..], service.calls[|c3|..]);
    PlanReachesSynced(s1, target);
    forall k | k !in toDelete + toAdd + Changes(s1, target)
      ensures Agree(s1, service.shares, k)
    {
      AgreeTrans(s1, s2, s3, k);
      AgreeTrans(s1, s3, service.shares, k);
    }
  }

  /** `sync_shares_from_form`: the target map is built from the form, the current shares are
      fetched, and the deletes, adds and level changes of the plan are issued in that order.
      When the fetch fails nothing else is called and the result is False; otherwise the
      result is whether every call succeeded, and when all did the upstream holds exactly
      the intended shares. An address outside the plan is never touched. */
  method SyncSharesFromForm(service: ShareService, sharesEmail: Option<seq<string>>,
                            sharesAccessLevel: Option<seq<int>>, skipFirst: bool)
    returns (ok: bool, target: map<string, int>, ghost fetched: bool,
             ghost deleted: seq<string>, ghost added: seq<string>, ghost checked: seq<string>,
             ghost groups: seq<seq<Call>>)
    modifies service
    ensures target == Upsert(map[], FormPairs(sharesEmail, sharesAccessLevel, skipFirst))
    ensures Extends(service.calls, old(service.calls))
    ensures |service.calls| > |old(service.calls)| && service.calls[|old(service.calls)|] == GetCall(fetched)
    ensures !fetched ==>
      && !ok
      && service.calls == old(service.calls) + [GetCall(false)]
      && service.shares == old(service.shares)
    ensures fetched ==>
      SyncLog(service.calls[|old(service.calls)| + 1..], old(service.shares), target, deleted, added, checked, groups)
    ensures ok <==> AllOk(service.calls[|old(service.calls)|..])
    ensures ok ==> service.shares == SyncedShares(old(service.shares), target)
    ensures forall k :: k !in Deletes(old(service.shares), target) + Adds(old(service.shares), target)
                                + Changes(old(service.shares), target) ==>
              Agree(old(service.shares), service.shares, k)
  {
    var emails := FormHelper.NormalizeList(sharesEmail);
    var levels := FormHelper.NormalizeList(sharesAccessLevel);
    if skipFirst {
      emails := if emails == [] then [] else emails[1..];
      levels := if levels == [] then [] else levels[1..];
    }
    target := BuildTargetMap(emails, levels);
    ghost var c0 := service.calls;
    deleted, added, checked, groups := [], [], [], [];
    var response := service.GetTodoShares();
    fetched := response.Some?;
    if response.None? {
      ok := false;
      assert !AllOk(service.calls[|c0|..]) by {
        assert service.calls[|c0|..][0] == GetCall(false);
      }
      return;
    }
    ghost var c1 := service.calls;
    var current := Compared(response.value);
    ok, deleted, added, checked, groups := Reconcile(service, target, current);
    assert service.calls[..|c1|] == c1;
    assert service.calls[|c0|..] == [GetCall(true)] + service.calls[|c1|..];
    AllOkAppend([GetCall(true)], service.calls[|c1|..]);
  }
}
