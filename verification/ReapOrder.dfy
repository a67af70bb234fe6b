/** A reap that cannot release everything releases what has been overdue longest. */
module ReapOrder {
  import opened Common
  import opened JsMap
  import opened Funds
  import opened Usage
  import opened Reaping

  // ---- The order of candidates ----

  /** Earlier lease first; on equal leases the user, and then the reservation, that comes first. */
  predicate Before(c: Candidate, d: Candidate) {
    c.lease < d.lease || (c.lease == d.lease && Earlier(c, d))
  }

  /** The order of the maps: users first, then reservations. */
  predicate Earlier(c: Candidate, d: Candidate) {
    c.user < d.user || (c.user == d.user && c.reservation < d.reservation)
  }

  ghost predicate InMapOrder(cs: seq<Candidate>) {
    forall x, y | 0 <= x < y < |cs| :: Earlier(cs[x], cs[y])
  }

  ghost predicate Sorted(cs: seq<Candidate>) {
    forall x, y | 0 <= x < y < |cs| :: Before(cs[x], cs[y])
  }

  lemma {:induction false} UserInMapOrder(rs: Dict<Reservation>, user: nat, now: int, n: nat)
    requires n <= |rs|
    ensures var cs := UserCandidates(rs, user, now, n);
            InMapOrder(cs) && forall x | 0 <= x < |cs| :: cs[x].user == user && cs[x].reservation < n
  {
    if n > 0 {
      UserInMapOrder(rs, user, now, n - 1);
    }
  }

  lemma {:induction false} AllInMapOrder(users: Dict<User>, now: int, n: nat)
    requires n <= |users|
    ensures var cs := AllCandidates(users, now, n);
            InMapOrder(cs) && forall x | 0 <= x < |cs| :: cs[x].user < n
  {
    if n > 0 {
      AllInMapOrder(users, now, n - 1);
      UserInMapOrder(users[n - 1].value.reservations, n - 1, now, |users[n - 1].value.reservations|);
    }
  }

  lemma {:induction false} InsertKeepsSorted(c: Candidate, sorted: seq<Candidate>)
    requires Sorted(sorted) && forall x | 0 <= x < |sorted| :: Earlier(c, sorted[x])
    ensures Sorted(InsertByLease(c, sorted))
  {
    if sorted != [] && c.lease > sorted[0].lease {
      InsertKeepsSorted(c, sorted[1..]);
      InsertFacts(c, sorted[1..]);
      var rest := InsertByLease(c, sorted[1..]);
      forall x | 0 <= x < |rest| ensures Before(sorted[0], rest[x]) {
        assert rest[x] in multiset(rest);
        assert rest[x] == c || rest[x] in sorted[1..];
      }
    }
  }

  lemma {:induction false} SortIsSorted(cs: seq<Candidate>)
    requires InMapOrder(cs)
    ensures Sorted(SortByLease(cs))
  {
    if cs != [] {
      SortIsSorted(cs[1..]);
      var rest := SortByLease(cs[1..]);
      SortFacts(cs[1..]);
      forall x | 0 <= x < |rest| ensures Earlier(cs[0], rest[x]) {
        assert rest[x] in multiset(rest);
        assert rest[x] in cs[1..];
      }
      InsertKeepsSorted(cs[0], rest);
    }
  }

  // ---- Who is a candidate, and who is released ----

  lemma {:induction false} UserListed(rs: Dict<Reservation>, user: nat, now: int, n: nat, k: nat)
    requires k < n <= |rs| && rs[k].value.status == Reserved && rs[k].value.leaseExpiresAt <= now
    ensures Candidate(user, k, rs[k].value.leaseExpiresAt) in UserCandidates(rs, user, now, n)
  {
    if k < n - 1 {
      UserListed(rs, user, now, n - 1, k);
    }
  }

  lemma {:induction false} Listed(users: Dict<User>, now: int, n: nat, i: nat, k: nat)
    requires i < n <= |users| && k < |users[i].value.reservations|
    requires var r := users[i].value.reservations[k].value; r.status == Reserved && r.leaseExpiresAt <= now
    ensures Candidate(i, k, users[i].value.reservations[k].value.leaseExpiresAt) in AllCandidates(users, now, n)
  {
    if i < n - 1 {
      Listed(users, now, n - 1, i, k);
    } else {
      UserListed(users[i].value.reservations, i, now, |users[i].value.reservations|, k);
    }
  }

  /** One release changes the reservation it is for, from reserved to released, and no other. */
  lemma ReleaseOfOne(users: Dict<User>, c: Candidate, now: int, i: nat, k: nat)
    requires i < |users| && k < |users[i].value.reservations|
    ensures var users' := ReleaseCandidate(users, c, now);
            var r := users[i].value.reservations[k].value;
            && |users'| == |users| && |users'[i].value.reservations| == |users[i].value.reservations|
            && users'[i].value.reservations[k].value
               == if c.user == i && c.reservation == k && r.status == Reserved && r.leaseExpiresAt <= now
                  then r.(status := Released) else r
  {
  }

  predicate InBatch(batch: seq<Candidate>, i: nat, k: nat) {
    exists x | 0 <= x < |batch| :: batch[x].user == i && batch[x].reservation == k
  }

  lemma {:induction false} ReleaseOfBatch(users: Dict<User>, batch: seq<Candidate>, now: int, i: nat, k: nat)
    requires i < |users| && k < |users[i].value.reservations|
    ensures var users' := ReleaseBatch(users, batch, now);
            var r := users[i].value.reservations[k].value;
            && |users'| == |users| && |users'[i].value.reservations| == |users[i].value.reservations|
            && users'[i].value.reservations[k].value
               == if InBatch(batch, i, k) && r.status == Reserved && r.leaseExpiresAt <= now
                  then r.(status := Released) else r
    decreases |batch|
  {
    if batch != [] {
      ReleaseOfOne(users, batch[0], now, i, k);
      ReleaseOfBatch(ReleaseCandidate(users, batch[0], now), batch[1..], now, i, k);
      InBatchUnfold(batch, i, k);
    }
  }

  lemma InBatchUnfold(batch: seq<Candidate>, i: nat, k: nat)
    requires batch != []
    ensures InBatch(batch, i, k)
            <==> (batch[0].user == i && batch[0].reservation == k) || InBatch(batch[1..], i, k)
  {
    if InBatch(batch[1..], i, k) {
      var x :| 0 <= x < |batch[1..]| && batch[1..][x].user == i && batch[1..][x].reservation == k;
      assert batch[x + 1] == batch[1..][x];
    }
    if x :| 0 <= x < |batch| && batch[x].user == i && batch[x].reservation == k {
      assert x > 0 ==> batch[1..][x - 1] == batch[x];
    }
  }

  /** Where an overdue reservation stands among the candidates. */
  lemma PlaceOf(users: Dict<User>, now: int, i: nat, k: nat) returns (x: nat)
    requires i < |users| && k < |users[i].value.reservations|
    requires var r := users[i].value.reservations[k].value; r.status == Reserved && r.leaseExpiresAt <= now
    ensures var sorted := SortByLease(AllCandidates(users, now, |users|));
            && Sorted(sorted)
            && x < |sorted| && sorted[x] == Candidate(i, k, users[i].value.reservations[k].value.leaseExpiresAt)
            && forall z | 0 <= z < |sorted| && sorted[z].user == i && sorted[z].reservation == k :: z == x
  {
    var cs := AllCandidates(users, now, |users|);
    var c := Candidate(i, k, users[i].value.reservations[k].value.leaseExpiresAt);
    Listed(users, now, |users|, i, k);
    AllInMapOrder(users, now, |users|);
    SortIsSorted(cs);
    SortFacts(cs);
    AllCandidateFacts(users, now, |users|);
    SortedStayDistinct(cs, SortByLease(cs));
    assert c in multiset(cs);
    assert c in SortByLease(cs);
    x :| x < |SortByLease(cs)| && SortByLease(cs)[x] == c;
  }

  lemma InBatchIff(sorted: seq<Candidate>, batch: seq<Candidate>, i: nat, k: nat, x: nat)
    requires |batch| <= |sorted| && batch == sorted[..|batch|]
    requires x < |sorted| && sorted[x].user == i && sorted[x].reservation == k
    requires forall z | 0 <= z < |sorted| && sorted[z].user == i && sorted[z].reservation == k :: z == x
    ensures InBatch(batch, i, k) <==> x < |batch|
  {
    if x < |batch| {
      assert batch[x] == sorted[x];
    }
  }

  /** A reap leaves a reservation reserved that was overdue only when every reservation it released had
      been overdue longer, or as long and comes first in the maps. */
  lemma LongestOverdueFirst(users: Dict<User>, now: int, limit: int, i: nat, k: nat, j: nat, l: nat)
    requires i < |users| && k < |users[i].value.reservations| && j < |users| && l < |users[j].value.reservations|
    requires var r, o := users[i].value.reservations[k].value, users[j].value.reservations[l].value;
             r.status == Reserved && r.leaseExpiresAt <= now && o.status == Reserved && o.leaseExpiresAt <= now
    ensures var users' := Reap(users, now, limit);
            && |users'| == |users|
            && |users'[i].value.reservations| == |users[i].value.reservations|
            && |users'[j].value.reservations| == |users[j].value.reservations|
            && (users'[i].value.reservations[k].value.status == Released
                && users'[j].value.reservations[l].value.status == Reserved ==>
                  var lease, other := users[i].value.reservations[k].value.leaseExpiresAt,
                                      users[j].value.reservations[l].value.leaseExpiresAt;
                  lease < other || (lease == other && (i < j || (i == j && k < l))))
  {
    var batch := Batch(users, now, limit);
    ReleaseOfBatch(users, batch, now, i, k);
    ReleaseOfBatch(users, batch, now, j, l);
    var x := PlaceOf(users, now, i, k);
    var y := PlaceOf(users, now, j, l);
    var sorted := SortByLease(AllCandidates(users, now, |users|));
    InBatchIff(sorted, batch, i, k, x);
    InBatchIff(sorted, batch, j, l, y);
  }

  /** A reap releases as many overdue reservations as its limit allows, at least one and at most a
      hundred, or all there are. */
  lemma ReapReleases(users: Dict<User>, now: int, limit: int)
    ensures var bound := if limit < 1 then 1 else if limit > 100 then 100 else limit;
            CountAll(Reap(users, now, limit), now)
            == if CountAll(users, now) <= bound then 0 else CountAll(users, now) - bound
  {
    CountNotNegative(users, now);
    ReapCount(users, now, limit);
  }

  /** Everything else about a reservation, and everything that was not overdue, stays; what was overdue
      is released or left as it was. */
  lemma ReapTouchesOverdueOnly(users: Dict<User>, now: int, limit: int, i: nat, k: nat)
    requires i < |users| && k < |users[i].value.reservations|
    ensures var users', r := Reap(users, now, limit), users[i].value.reservations[k].value;
            && |users'| == |users| && |users'[i].value.reservations| == |users[i].value.reservations|
            && (users'[i].value.reservations[k].value == r
                || (r.status == Reserved && r.leaseExpiresAt <= now
                    && users'[i].value.reservations[k].value == r.(status := Released)))
  {
    ReleaseOfBatch(users, Batch(users, now, limit), now, i, k);
  }
}
