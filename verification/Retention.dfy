/** The capped retention job: erase the candidates whose earliest resume is oldest
    (apps/api/app/routers_retention.py). */
module Retention {
  import opened Common
  import opened Erasure

  /** An address with a date: a row of the query, or an entry of earliest_by_email. */
  datatype Dated = Dated(email: string, date: int)

  predicate Eligible(db: Db, org: nat, cutoff: int, i: nat) {
    i < |db.resumes| && db.resumes[i].org == org && db.resumes[i].email.Some? && db.resumes[i].createdAt < cutoff
  }

  /** The normalized addresses the job could pick. */
  function EligibleKeys(text: TextOps, db: Db, org: nat, cutoff: int): (keys: set<string>) {
    set i: nat | i < |db.resumes| && Eligible(db, org, cutoff, i) :: Normal(text, db.resumes[i].email.value)
  }

  // ----- the query -----

  function RowsUpTo(db: Db, org: nat, cutoff: int, n: nat): (rows: seq<Dated>)
    requires n <= |db.resumes|
  {
    if n == 0 then []
    else RowsUpTo(db, org, cutoff, n - 1)
         + if Eligible(db, org, cutoff, n - 1) then
             [Dated(db.resumes[n - 1].email.value, db.resumes[n - 1].createdAt)] else []
  }

  function DateOf(d: Dated): (date: int) {
    d.date
  }

  function EmailOf(d: Dated): (email: string) {
    d.email
  }

  function Sort(ds: seq<Dated>): (sorted: seq<Dated>) {
    SortBy(ds, DateOf)
  }

  function Query(db: Db, org: nat, cutoff: int): (rows: seq<Dated>) {
    Sort(RowsUpTo(db, org, cutoff, |db.resumes|))
  }

  // ----- the earliest date by address -----

  function IndexOf(dict: seq<Dated>, email: string): (r: Option<nat>)
    ensures r.None? <==> forall d | d in dict :: d.email != email
    ensures r.Some? ==> r.value < |dict| && dict[r.value].email == email
  {
    if dict == [] then None
    else if dict[|dict| - 1].email == email then Some(|dict| - 1)
    else
      assert dict == dict[..|dict| - 1] + [dict[|dict| - 1]];
      IndexOf(dict[..|dict| - 1], email)
  }

  function Note(dict: seq<Dated>, email: string, date: int): (dict': seq<Dated>) {
    var at := IndexOf(dict, email);
    if at.None? then dict + [Dated(email, date)]
    else if date < dict[at.value].date then dict[at.value := Dated(email, date)]
    else dict
  }

  function EarliestByEmail(text: TextOps, rows: seq<Dated>): (dict: seq<Dated>) {
    if rows == [] then []
    else
      var row := rows[|rows| - 1];
      Note(EarliestByEmail(text, rows[..|rows| - 1]), Normal(text, row.email), row.date)
  }

  function Candidates(text: TextOps, db: Db, org: nat, cutoff: int, limit: nat): (candidates: seq<Dated>) {
    var sorted := Sort(EarliestByEmail(text, Query(db, org, cutoff)));
    if |sorted| <= limit then sorted else sorted[..limit]
  }

  function Emails(ds: seq<Dated>): (emails: seq<string>) {
    seq(|ds|, i requires 0 <= i < |ds| => ds[i].email)
  }

  /** An address that finds nothing is skipped, any other erased and counted. */
  function ThenErase(text: TextOps, before: (Db, nat), org: nat, email: string): (after: (Db, nat)) {
    var (db, n) := before;
    if !Any(Find(text, db, org, email)) then (db, n) else (Erase(text, db, org, email), n + 1)
  }

  function EraseAll(text: TextOps, db: Db, org: nat, emails: seq<string>): (after: (Db, nat)) {
    if emails == [] then (db, 0)
    else ThenErase(text, EraseAll(text, db, org, emails[..|emails| - 1]), org, emails[|emails| - 1])
  }

  function RealRun(text: TextOps, db: Db, org: nat, cutoff: int, limit: nat): (after: (Db, nat)) {
    EraseAll(text, db, org, Emails(Candidates(text, db, org, cutoff, limit)))
  }

  // ----- the code -----

  method CollectEarliest(text: TextOps, rows: seq<Dated>) returns (dict: seq<Dated>)
    ensures dict == EarliestByEmail(text, rows)
  {
    dict := [];
    for i := 0 to |rows|
      invariant dict == EarliestByEmail(text, rows[..i])
    {
      assert rows[..i + 1][..i] == rows[..i];
      var normalized := Normal(text, rows[i].email);
      var at := IndexOf(dict, normalized);
      if at.None? {
        dict := dict + [Dated(normalized, rows[i].date)];
      } else if rows[i].date < dict[at.value].date {
        dict := dict[at.value := Dated(normalized, rows[i].date)];
      }
    }
    assert rows[..|rows|] == rows;
  }

  method SelectCandidates(text: TextOps, db: Db, org: nat, cutoff: int, limit: nat) returns (candidates: seq<Dated>)
    ensures candidates == Candidates(text, db, org, cutoff, limit)
  {
    candidates := CollectEarliest(text, Query(db, org, cutoff));
    candidates := Sort(candidates);
    if |candidates| > limit {
      candidates := candidates[..limit];
    }
  }

  lemma EraseOneMore(text: TextOps, db: Db, org: nat, emails: seq<string>, i: nat)
    requires i < |emails|
    ensures EraseAll(text, db, org, emails[..i + 1])
         == ThenErase(text, EraseAll(text, db, org, emails[..i]), org, emails[i])
  {
    assert emails[..i + 1][..i] == emails[..i];
  }

  /** The loop's body. */
  method EraseNext(store: Store, text: TextOps, org: nat, email: string, count: nat) returns (erasedCount: nat)
    modifies store
    ensures (store.db, erasedCount) == ThenErase(text, (old(store.db), count), org, email)
  {
    var records := Find(text, store.db, org, email);
    if !Any(records) {
      return count;
    }
    store.ApplyErasure(records);
    erasedCount := count + 1;
  }

  method EraseEach(store: Store, text: TextOps, org: nat, emails: seq<string>) returns (erasedCount: nat)
    modifies store
    ensures (store.db, erasedCount) == EraseAll(text, old(store.db), org, emails)
  {
    erasedCount := 0;
    ghost var db := store.db;
    for i := 0 to |emails|
      invariant (store.db, erasedCount) == EraseAll(text, db, org, emails[..i])
    {
      EraseOneMore(text, db, org, emails, i);
      erasedCount := EraseNext(store, text, org, emails[i], erasedCount);
    }
    assert emails[..|emails|] == emails;
  }

  /** The real run's loop over the candidates. */
  method EraseCandidates(store: Store, text: TextOps, org: nat, cutoff: int, limit: nat, candidates: seq<Dated>)
    returns (erasedCount: nat)
    requires candidates == Candidates(text, store.db, org, cutoff, limit)
    modifies store
    ensures (store.db, erasedCount) == RealRun(text, old(store.db), org, cutoff, limit)
    ensures ErasedFrom(text, old(store.db), store.db, org, cutoff, limit, erasedCount)
  {
    RunCounts(text, store.db, org, cutoff, limit);
    erasedCount := EraseEach(store, text, org, Emails(candidates));
  }

  method Run(store: Store, text: TextOps, org: nat, now: int, age: nat, dryRun: bool, limit: nat)
    returns (eligibleCount: nat, erasedCount: nat, candidates: seq<Dated>)
    modifies store
    ensures candidates == Candidates(text, old(store.db), org, now - age, limit)
    ensures eligibleCount == |candidates|
    ensures dryRun ==> store.db == old(store.db) && erasedCount == 0
    ensures !dryRun ==> (store.db, erasedCount) == RealRun(text, old(store.db), org, now - age, limit)
    ensures !dryRun ==> ErasedFrom(text, old(store.db), store.db, org, now - age, limit, erasedCount)
  {
    var cutoff := now - age;
    candidates := SelectCandidates(text, store.db, org, cutoff, limit);
    eligibleCount := |candidates|;
    erasedCount := 0;
    if !dryRun {
      erasedCount := EraseCandidates(store, text, org, cutoff, limit, candidates);
    }
  }

  // ----- sorting -----

  lemma SortSorts(ds: seq<Dated>)
    ensures OrderedBy(Sort(ds), DateOf) && |Sort(ds)| == |ds|
    ensures forall x :: x in Sort(ds) <==> x in ds
    ensures DistinctBy(ds, EmailOf) ==> DistinctBy(Sort(ds), EmailOf)
  {
    SortOrders(ds, DateOf);
    if DistinctBy(ds, EmailOf) {
      SortKeepsDistinct(ds, DateOf, EmailOf);
    }
  }

  // ----- what the dictionary holds -----

  /** Every entry comes from a row of its address and date. */
  predicate FromRows(text: TextOps, dict: seq<Dated>, rows: seq<Dated>) {
    forall d | d in dict :: exists r :: r in rows && Normal(text, r.email) == d.email && r.date == d.date
  }

  /** Every row's address has an entry no later than the row. */
  predicate CoversRows(text: TextOps, dict: seq<Dated>, rows: seq<Dated>) {
    forall r | r in rows :: Covers(dict, Normal(text, r.email), r.date)
  }

  predicate Covers(dict: seq<Dated>, email: string, date: int) {
    exists d :: d in dict && d.email == email && d.date <= date
  }

  lemma NoteDistinct(dict: seq<Dated>, email: string, date: int)
    requires DistinctBy(dict, EmailOf)
    ensures DistinctBy(Note(dict, email, date), EmailOf)
  {
    assert forall i | 0 <= i < |dict| :: dict[i] in dict;
  }

  lemma NoteFromRows(text: TextOps, dict: seq<Dated>, rows: seq<Dated>, row: Dated)
    requires FromRows(text, dict, rows)
    ensures FromRows(text, Note(dict, Normal(text, row.email), row.date), rows + [row])
  {
    var email := Normal(text, row.email);
    var dict' := Note(dict, email, row.date);
    forall d | d in dict'
      ensures exists r :: r in rows + [row] && Normal(text, r.email) == d.email && r.date == d.date
    {
      if d in dict {
        var r :| r in rows && Normal(text, r.email) == d.email && r.date == d.date;
        assert r in rows + [row];
      } else {
        NewEntry(dict, email, row.date, d);
        assert row in rows + [row];
      }
    }
  }

  lemma NewEntry(dict: seq<Dated>, email: string, date: int, d: Dated)
    requires d in Note(dict, email, date) && d !in dict
    ensures d == Dated(email, date)
  {
  }

  lemma StillNoted(dict: seq<Dated>, email: string, date: int, d: Dated)
    requires d in dict && DistinctBy(dict, EmailOf)
    ensures exists d' :: d' in Note(dict, email, date) && d'.email == d.email && d'.date <= d.date
  {
    var i :| 0 <= i < |dict| && dict[i] == d;
    assert Note(dict, email, date)[i] in Note(dict, email, date);
  }

  lemma NewlyNoted(dict: seq<Dated>, email: string, date: int)
    ensures exists d :: d in Note(dict, email, date) && d.email == email && d.date <= date
  {
    var at := IndexOf(dict, email);
    var dict' := Note(dict, email, date);
    assert dict'[if at.None? then |dict| else at.value] in dict';
  }

  lemma NoteCoversRows(text: TextOps, dict: seq<Dated>, rows: seq<Dated>, row: Dated)
    requires CoversRows(text, dict, rows) && DistinctBy(dict, EmailOf)
    ensures CoversRows(text, Note(dict, Normal(text, row.email), row.date), rows + [row])
  {
    var email := Normal(text, row.email);
    var dict' := Note(dict, email, row.date);
    forall r | r in rows + [row]
      ensures exists d :: d in dict' && d.email == Normal(text, r.email) && d.date <= r.date
    {
      if r in rows {
        var d :| d in dict && d.email == Normal(text, r.email) && d.date <= r.date;
        StillNoted(dict, email, row.date, d);
        var d' :| d' in dict' && d'.email == d.email && d'.date <= d.date;
      } else {
        NewlyNoted(dict, email, row.date);
      }
    }
  }

  /** The dictionary lists each address of the rows once, with the earliest of its dates. */
  lemma {:induction false} DictDistinct(text: TextOps, rows: seq<Dated>)
    ensures DistinctBy(EarliestByEmail(text, rows), EmailOf)
  {
    if rows != [] {
      var k := |rows| - 1;
      DictDistinct(text, rows[..k]);
      NoteDistinct(EarliestByEmail(text, rows[..k]), Normal(text, rows[k].email), rows[k].date);
    }
  }

  lemma {:induction false} DictFromRows(text: TextOps, rows: seq<Dated>)
    ensures FromRows(text, EarliestByEmail(text, rows), rows)
  {
    if rows != [] {
      var k := |rows| - 1;
      DictFromRows(text, rows[..k]);
      NoteFromRows(text, EarliestByEmail(text, rows[..k]), rows[..k], rows[k]);
      assert rows == rows[..k] + [rows[k]];
    }
  }

  lemma {:induction false} DictCoversRows(text: TextOps, rows: seq<Dated>)
    ensures CoversRows(text, EarliestByEmail(text, rows), rows)
  {
    if rows != [] {
      var k := |rows| - 1;
      DictCoversRows(text, rows[..k]);
      DictDistinct(text, rows[..k]);
      NoteCoversRows(text, EarliestByEmail(text, rows[..k]), rows[..k], rows[k]);
      assert rows == rows[..k] + [rows[k]];
    }
  }

  lemma {:induction false} RowsAre(db: Db, org: nat, cutoff: int, n: nat)
    requires n <= |db.resumes|
    ensures forall r :: r in RowsUpTo(db, org, cutoff, n) <==>
              exists i: nat :: i < n && Eligible(db, org, cutoff, i)
                               && r == Dated(db.resumes[i].email.value, db.resumes[i].createdAt)
  {
    if n > 0 {
      RowsAre(db, org, cutoff, n - 1);
    }
  }

  // ----- the candidates are the oldest -----

  function KeySet(emails: seq<string>): (keys: set<string>) {
    set e | e in emails
  }

  lemma {:induction false} DistinctCount(emails: seq<string>)
    requires forall i, j | 0 <= i < j < |emails| :: emails[i] != emails[j]
    ensures |KeySet(emails)| == |emails|
  {
    if emails != [] {
      var k := |emails| - 1;
      DistinctCount(emails[..k]);
      assert emails == emails[..k] + [emails[k]];
      assert KeySet(emails) == KeySet(emails[..k]) + {emails[k]};
    }
  }

  lemma QueryAre(db: Db, org: nat, cutoff: int)
    ensures forall r :: r in Query(db, org, cutoff) <==>
              exists i: nat :: i < |db.resumes| && Eligible(db, org, cutoff, i)
                               && r == Dated(db.resumes[i].email.value, db.resumes[i].createdAt)
  {
    RowsAre(db, org, cutoff, |db.resumes|);
    SortSorts(RowsUpTo(db, org, cutoff, |db.resumes|));
  }

  function Listed(text: TextOps, db: Db, org: nat, cutoff: int): (listed: seq<Dated>) {
    Sort(EarliestByEmail(text, Query(db, org, cutoff)))
  }

  lemma ListedIsEligible(text: TextOps, db: Db, org: nat, cutoff: int, d: Dated)
    requires d in Listed(text, db, org, cutoff)
    ensures exists i: nat :: i < |db.resumes| && Eligible(db, org, cutoff, i)
                             && Normal(text, db.resumes[i].email.value) == d.email && db.resumes[i].createdAt == d.date
  {
    var rows := Query(db, org, cutoff);
    SortSorts(EarliestByEmail(text, rows));
    DictFromRows(text, rows);
    var r :| r in rows && Normal(text, r.email) == d.email && r.date == d.date;
    QueryAre(db, org, cutoff);
  }

  lemma EligibleIsListed(text: TextOps, db: Db, org: nat, cutoff: int, i: nat)
    requires Eligible(db, org, cutoff, i)
    ensures exists d :: d in Listed(text, db, org, cutoff)
                        && d.email == Normal(text, db.resumes[i].email.value) && d.date <= db.resumes[i].createdAt
  {
    var rows := Query(db, org, cutoff);
    QueryAre(db, org, cutoff);
    assert Dated(db.resumes[i].email.value, db.resumes[i].createdAt) in rows;
    DictCoversRows(text, rows);
    SortSorts(EarliestByEmail(text, rows));
  }

  /** The sorted dictionary lists exactly the eligible addresses, each once. */
  lemma ListedAreEligible(text: TextOps, db: Db, org: nat, cutoff: int)
    ensures KeySet(Emails(Listed(text, db, org, cutoff))) == EligibleKeys(text, db, org, cutoff)
    ensures OrderedBy(Listed(text, db, org, cutoff), DateOf) && DistinctBy(Listed(text, db, org, cutoff), EmailOf)
    ensures |Listed(text, db, org, cutoff)| == |EligibleKeys(text, db, org, cutoff)|
  {
    var listed := Listed(text, db, org, cutoff);
    forall e | e in Emails(listed) ensures e in EligibleKeys(text, db, org, cutoff) {
      var k :| 0 <= k < |listed| && Emails(listed)[k] == e;
      ListedIsEligible(text, db, org, cutoff, listed[k]);
    }
    forall i: nat | Eligible(db, org, cutoff, i) ensures Normal(text, db.resumes[i].email.value) in Emails(listed) {
      EligibleIsListed(text, db, org, cutoff, i);
      var d :| d in listed && d.email == Normal(text, db.resumes[i].email.value);
      var k :| 0 <= k < |listed| && listed[k] == d;
      assert Emails(listed)[k] == d.email;
    }
    var rows := Query(db, org, cutoff);
    DictDistinct(text, rows);
    SortSorts(EarliestByEmail(text, rows));
    DistinctCount(Emails(listed));
  }

  function Min(a: nat, b: nat): (least: nat) {
    if a < b then a else b
  }

  function Chosen(text: TextOps, db: Db, org: nat, cutoff: int, limit: nat): (emails: seq<string>) {
    Emails(Candidates(text, db, org, cutoff, limit))
  }

  /** The candidates are min(k, limit) distinct eligible addresses. */
  lemma CandidatesCapped(text: TextOps, db: Db, org: nat, cutoff: int, limit: nat)
    ensures var chosen := Chosen(text, db, org, cutoff, limit);
            var keys := EligibleKeys(text, db, org, cutoff);
            && |chosen| == Min(|keys|, limit)
            && (forall i, j | 0 <= i < j < |chosen| :: chosen[i] != chosen[j])
            && KeySet(chosen) <= keys && |KeySet(chosen)| == |chosen|
  {
    var listed := Listed(text, db, org, cutoff);
    ListedAreEligible(text, db, org, cutoff);
    var chosen := Chosen(text, db, org, cutoff, limit);
    forall e | e in chosen ensures e in Emails(listed) {
      var i :| 0 <= i < |chosen| && chosen[i] == e;
      assert Emails(listed)[i] == e;
    }
    DistinctCount(chosen);
  }

  /** They are the oldest: each has an upload no later than any eligible upload of an address left out. */
  lemma CandidatesOldest(text: TextOps, db: Db, org: nat, cutoff: int, limit: nat, key: string, left: nat)
    requires key in Chosen(text, db, org, cutoff, limit)
    requires Eligible(db, org, cutoff, left)
    requires Normal(text, db.resumes[left].email.value) !in Chosen(text, db, org, cutoff, limit)
    ensures exists i: nat :: i < |db.resumes| && Eligible(db, org, cutoff, i)
                             && Normal(text, db.resumes[i].email.value) == key
                             && db.resumes[i].createdAt <= db.resumes[left].createdAt
  {
    var listed := Listed(text, db, org, cutoff);
    var chosen := Chosen(text, db, org, cutoff, limit);
    ListedAreEligible(text, db, org, cutoff);
    var k :| 0 <= k < |chosen| && chosen[k] == key;
    ListedIsEligible(text, db, org, cutoff, listed[k]);
    EligibleIsListed(text, db, org, cutoff, left);
    var d :| d in listed && d.email == Normal(text, db.resumes[left].email.value)
             && d.date <= db.resumes[left].createdAt;
    var m :| 0 <= m < |listed| && listed[m] == d;
    assert forall x | 0 <= x < |chosen| :: listed[x].email == chosen[x] && chosen[x] in chosen;
    assert m >= |chosen|;
    var i: nat :| i < |db.resumes| && Eligible(db, org, cutoff, i)
                  && Normal(text, db.resumes[i].email.value) == listed[k].email
                  && db.resumes[i].createdAt == listed[k].date;
    assert listed[k].email == key;
  }

  // ----- the erase loop -----

  /** A stored address the lookup recognises from its normal form: no surrounding whitespace. */
  predicate CleanAddress(text: TextOps, email: string) {
    Normal(text, email) == text.lower(email) && Normal(text, text.lower(email)) == text.lower(email)
  }

  predicate Clean(text: TextOps, db: Db, org: nat, cutoff: int) {
    forall i: nat | i < |db.resumes| && Eligible(db, org, cutoff, i) :: CleanAddress(text, db.resumes[i].email.value)
  }

  /** Erasing an address leaves the others eligible as they were; the address itself stays eligible
      exactly through rows the lookup does not recognise. */
  lemma ErasedKeyLeaves(text: TextOps, db: Db, org: nat, cutoff: int, key: string, other: string)
    requires Normal(text, key) == key
    ensures other in EligibleKeys(text, Erase(text, db, org, key), org, cutoff) <==>
            exists i: nat :: i < |db.resumes| && Eligible(db, org, cutoff, i)
                             && Normal(text, db.resumes[i].email.value) == other
                             && text.lower(db.resumes[i].email.value) != key
  {
    var db' := Erase(text, db, org, key);
    var found := Find(text, db, org, key).resumes;
    forall i: nat | i < |db.resumes|
      ensures Eligible(db', org, cutoff, i) <==>
              Eligible(db, org, cutoff, i) && text.lower(db.resumes[i].email.value) != key
      ensures Eligible(db', org, cutoff, i) ==> db'.resumes[i] == db.resumes[i]
    {
      if i in found {
        assert db'.resumes[i] == RedactResume(db.resumes[i]);
      }
    }
    if exists i: nat :: i < |db.resumes| && Eligible(db, org, cutoff, i)
                        && Normal(text, db.resumes[i].email.value) == other
                        && text.lower(db.resumes[i].email.value) != key
    {
      var i: nat :| i < |db.resumes| && Eligible(db, org, cutoff, i)
                    && Normal(text, db.resumes[i].email.value) == other && text.lower(db.resumes[i].email.value) != key;
      assert Eligible(db', org, cutoff, i) && Normal(text, db'.resumes[i].email.value) == other;
    }
  }

  lemma CleanKey(text: TextOps, db: Db, org: nat, cutoff: int, key: string)
    requires Clean(text, db, org, cutoff) && key in EligibleKeys(text, db, org, cutoff)
    ensures Normal(text, key) == key && Any(Find(text, db, org, key))
    ensures EligibleKeys(text, Erase(text, db, org, key), org, cutoff) == EligibleKeys(text, db, org, cutoff) - {key}
    ensures Clean(text, Erase(text, db, org, key), org, cutoff)
  {
    var i: nat :| i < |db.resumes| && Eligible(db, org, cutoff, i) && Normal(text, db.resumes[i].email.value) == key;
    assert CleanAddress(text, db.resumes[i].email.value);
    assert i in Find(text, db, org, key).resumes;
    var db' := Erase(text, db, org, key);
    forall j: nat | j < |db'.resumes| && Eligible(db', org, cutoff, j)
      ensures Eligible(db, org, cutoff, j) && db'.resumes[j] == db.resumes[j]
    {
    }
    forall other
      ensures other in EligibleKeys(text, db', org, cutoff) <==> other in EligibleKeys(text, db, org, cutoff) - {key}
    {
      ErasedKeyLeaves(text, db, org, cutoff, key, other);
    }
  }

  lemma {:induction false} EraseAllDrains(text: TextOps, db: Db, org: nat, cutoff: int, emails: seq<string>)
    requires Clean(text, db, org, cutoff) && KeySet(emails) <= EligibleKeys(text, db, org, cutoff)
    requires forall i, j | 0 <= i < j < |emails| :: emails[i] != emails[j]
    ensures var (db', n) := EraseAll(text, db, org, emails);
            && n == |emails| && Clean(text, db', org, cutoff)
            && EligibleKeys(text, db', org, cutoff) == EligibleKeys(text, db, org, cutoff) - KeySet(emails)
  {
    if emails != [] {
      var k := |emails| - 1;
      var before := emails[..k];
      assert emails == before + [emails[k]];
      assert KeySet(emails) == KeySet(before) + {emails[k]};
      EraseAllDrains(text, db, org, cutoff, before);
      assert emails[k] !in KeySet(before);
      CleanKey(text, EraseAll(text, db, org, before).0, org, cutoff, emails[k]);
    }
  }

  // ----- draining -----

  /** A real run with k eligible addresses erases min(k, limit) of them, says so, and leaves the rest. */
  lemma RunErasesOldest(text: TextOps, db: Db, org: nat, cutoff: int, limit: nat)
    requires Clean(text, db, org, cutoff)
    ensures var keys := EligibleKeys(text, db, org, cutoff);
            var (db', erased) := RealRun(text, db, org, cutoff, limit);
            && erased == Min(|keys|, limit) && Clean(text, db', org, cutoff)
            && EligibleKeys(text, db', org, cutoff) == keys - KeySet(Chosen(text, db, org, cutoff, limit))
            && |EligibleKeys(text, db', org, cutoff)| == |keys| - erased
  {
    CandidatesCapped(text, db, org, cutoff, limit);
    EraseAllDrains(text, db, org, cutoff, Chosen(text, db, org, cutoff, limit));
  }

  // ----- addresses that are not chosen -----

  /** Erasing some of these addresses generates this one: a row one of them finds has it for its alias. */
  predicate Generates(text: TextOps, db: Db, org: nat, emails: seq<string>, key: string) {
    exists e :: e in emails && IsAlias(text, db, Find(text, db, org, e), key)
  }

  /** From db to db', the address keeps its records as they were; it finds them, and no others unless `more`. */
  predicate LeftAlone(text: TextOps, db: Db, db': Db, org: nat, other: string, more: bool) {
    var before, after := Find(text, db, org, other), Find(text, db', org, other);
    SameRows(db, db', before) && Within(before, after) && (after == before <==> !more)
  }

  lemma NothingFoundNothingGenerated(text: TextOps, db: Db, org: nat, email: string, key: string)
    requires !Any(Find(text, db, org, email))
    ensures !IsAlias(text, db, Find(text, db, org, email), key)
  {
  }

  lemma ErasedOneMore(text: TextOps, db: Db, count: nat, org: nat, email: string, other: string)
    requires Normal(text, email) != Normal(text, other)
    ensures LeftAlone(text, db, ThenErase(text, (db, count), org, email).0, org, other,
                      FindsAlias(text, db, org, email, Normal(text, other)))
  {
    if Any(Find(text, db, org, email)) {
      OthersUntouched(text, db, org, email, other);
      OthersStillFound(text, db, org, email, other);
    } else {
      NothingFoundNothingGenerated(text, db, org, email, Normal(text, other));
    }
  }

  lemma SameRowsChain(db: Db, db': Db, db'': Db, r: Records, r': Records)
    requires SameRows(db, db', r) && SameRows(db', db'', r') && Within(r, r')
    ensures SameRows(db, db'', r)
  {
  }

  lemma WithinChain(r: Records, r': Records, r'': Records)
    requires Within(r, r') && Within(r', r'')
    ensures Within(r, r'') && (r'' == r <==> r' == r && r'' == r')
  {
  }

  lemma AloneChain(
    text: TextOps, db: Db, db': Db, db'': Db, org: nat, other: string, more: bool, more': bool)
    requires LeftAlone(text, db, db', org, other, more) && LeftAlone(text, db', db'', org, other, more')
    ensures LeftAlone(text, db, db'', org, other, more || more')
  {
    var r, r', r'' := Find(text, db, org, other), Find(text, db', org, other), Find(text, db'', org, other);
    SameRowsChain(db, db', db'', r, r');
    WithinChain(r, r', r'');
  }

  predicate FindsAlias(text: TextOps, db: Db, org: nat, email: string, key: string) {
    IsAlias(text, db, Find(text, db, org, email), key)
  }

  /** Erasing one address leaves another's alias rows as they were, and its own can only go. */
  lemma AliasesAfter(text: TextOps, db: Db, org: nat, email: string, other: string, key: string)
    requires Normal(text, other) != key
    ensures var db' := Erase(text, db, org, email);
            && (FindsAlias(text, db', org, other, key) ==> FindsAlias(text, db, org, other, key))
            && (Normal(text, email) != Normal(text, other) ==>
                  (FindsAlias(text, db, org, other, key) ==> FindsAlias(text, db', org, other, key)))
  {
    var r, before := Find(text, db, org, email), Find(text, db, org, other);
    var db' := Redact(db, r);
    var after := Find(text, db', org, other);
    RootsAfter(text, db, org, email, Normal(text, other));
    assert AliasedInvites(text, db', after.invites, key) <= AliasedInvites(text, db, before.invites, key);
    assert AliasedSessions(text, db', after.sessions, key) <= AliasedSessions(text, db, before.sessions, key);
    if Normal(text, email) != Normal(text, other) {
      assert AliasedInvites(text, db, before.invites, key) <= AliasedInvites(text, db', after.invites, key);
      assert AliasedSessions(text, db, before.sessions, key) <= AliasedSessions(text, db', after.sessions, key);
    }
  }

  lemma {:induction false} AliasesAfterAll(
    text: TextOps, db: Db, org: nat, emails: seq<string>, other: string, key: string)
    requires Normal(text, other) != key
    ensures var db' := EraseAll(text, db, org, emails).0;
            && (FindsAlias(text, db', org, other, key) ==> FindsAlias(text, db, org, other, key))
            && ((forall e | e in emails :: Normal(text, e) != Normal(text, other)) ==>
                  (FindsAlias(text, db, org, other, key) ==> FindsAlias(text, db', org, other, key)))
  {
    if emails != [] {
      var k := |emails| - 1;
      AliasesAfterAll(text, db, org, emails[..k], other, key);
      AliasesAfter(text, EraseAll(text, db, org, emails[..k]).0, org, emails[k], other, key);
      assert emails[k] in emails && forall e | e in emails[..k] :: e in emails;
    }
  }

  /** The last of these erasures generates the address, or one before it does. */
  lemma GeneratesOneMore(text: TextOps, db: Db, org: nat, emails: seq<string>, key: string)
    requires emails != [] && forall e | e in emails :: Normal(text, e) != key
    ensures var k := |emails| - 1;
            Generates(text, db, org, emails, key)
            <==> Generates(text, db, org, emails[..k], key)
                 || FindsAlias(text, EraseAll(text, db, org, emails[..k]).0, org, emails[k], key)
  {
    var k := |emails| - 1;
    var before := emails[..k];
    assert emails == before + [emails[k]];
    assert emails[k] in emails;
    AliasesAfterAll(text, db, org, before, emails[k], key);
    if FindsAlias(text, db, org, emails[k], key) {
      if e :| e in before && Normal(text, e) == Normal(text, emails[k]) {
        assert Find(text, db, org, e) == Find(text, db, org, emails[k]);
      }
    }
    if Generates(text, db, org, before, key) {
      var e :| e in before && IsAlias(text, db, Find(text, db, org, e), key);
      assert e in emails;
    }
  }

  lemma {:induction false} EraseAllLeavesOthers(text: TextOps, db: Db, org: nat, emails: seq<string>, other: string)
    requires forall e | e in emails :: Normal(text, e) != Normal(text, other)
    ensures LeftAlone(text, db, EraseAll(text, db, org, emails).0, org, other,
                      Generates(text, db, org, emails, Normal(text, other)))
  {
    if emails != [] {
      var k := |emails| - 1;
      var (db', n) := EraseAll(text, db, org, emails[..k]);
      EraseAllLeavesOthers(text, db, org, emails[..k], other);
      ErasedOneMore(text, db', n, org, emails[k], other);
      AloneChain(text, db, db', EraseAll(text, db, org, emails).0, org, other,
                 Generates(text, db, org, emails[..k], Normal(text, other)),
                 FindsAlias(text, db', org, emails[k], Normal(text, other)));
      GeneratesOneMore(text, db, org, emails, Normal(text, other));
    }
  }

  lemma NormalIsNormal(text: TextOps, email: string)
    requires Lawful(text)
    ensures Normal(text, Normal(text, email)) == Normal(text, email)
  {
    assert LawsAt(text, text.strip(email)) && LawsAt(text, email);
  }

  lemma ChosenAreNormal(text: TextOps, db: Db, org: nat, cutoff: int, limit: nat, key: string)
    requires Lawful(text) && key in Chosen(text, db, org, cutoff, limit)
    ensures Normal(text, key) == key
  {
    CandidatesCapped(text, db, org, cutoff, limit);
    assert key in EligibleKeys(text, db, org, cutoff);
    var i: nat :| i < |db.resumes| && Eligible(db, org, cutoff, i) && Normal(text, db.resumes[i].email.value) == key;
    NormalIsNormal(text, db.resumes[i].email.value);
  }

  /** A real run leaves every record of an address it did not choose as it was, and that address finds exactly
      those records still, unless it is the alias of a row one of the chosen addresses finds beforehand. */
  lemma RunLeavesOthers(text: TextOps, db: Db, org: nat, cutoff: int, limit: nat, other: string)
    requires Lawful(text) && Normal(text, other) !in Chosen(text, db, org, cutoff, limit)
    ensures LeftAlone(text, db, RealRun(text, db, org, cutoff, limit).0, org, other,
                      Generates(text, db, org, Chosen(text, db, org, cutoff, limit), Normal(text, other)))
  {
    var chosen := Chosen(text, db, org, cutoff, limit);
    forall e | e in chosen ensures Normal(text, e) != Normal(text, other) {
      ChosenAreNormal(text, db, org, cutoff, limit, e);
    }
    EraseAllLeavesOthers(text, db, org, chosen, other);
  }

  // ----- the candidates in terms of the columns -----

  /** A resume of the organization with this address, uploaded at this time. */
  predicate UploadedAt(text: TextOps, db: Db, org: nat, key: string, i: nat, at: int) {
    && i < |db.resumes| && db.resumes[i].org == org && db.resumes[i].email.Some?
    && text.lower(text.strip(db.resumes[i].email.value)) == key && db.resumes[i].createdAt == at
  }

  /** Each candidate's date is that of its earliest upload, before the cutoff; and they come oldest first. */
  lemma CandidatesAre(text: TextOps, db: Db, org: nat, cutoff: int, limit: nat, k: nat)
    requires k < |Candidates(text, db, org, cutoff, limit)|
    ensures var ds := Candidates(text, db, org, cutoff, limit);
            && ds[k].date < cutoff
            && (exists i: nat :: UploadedAt(text, db, org, ds[k].email, i, ds[k].date))
            && (forall i: nat, at: int :: UploadedAt(text, db, org, ds[k].email, i, at) ==> ds[k].date <= at)
            && forall j | 0 <= j < k :: ds[j].date <= ds[k].date
  {
    var ds, listed := Candidates(text, db, org, cutoff, limit), Listed(text, db, org, cutoff);
    ListedAreEligible(text, db, org, cutoff);
    assert ds[k] == listed[k];
    ListedIsEligible(text, db, org, cutoff, listed[k]);
    var i: nat :| i < |db.resumes| && Eligible(db, org, cutoff, i)
                  && Normal(text, db.resumes[i].email.value) == ds[k].email && db.resumes[i].createdAt == ds[k].date;
    assert UploadedAt(text, db, org, ds[k].email, i, ds[k].date);
    forall i: nat, at: int | UploadedAt(text, db, org, ds[k].email, i, at) ensures ds[k].date <= at {
      if at < cutoff {
        EarliestListed(text, db, org, cutoff, k, i);
      }
    }
    assert forall j | 0 <= j < k :: ds[j] == listed[j] && DateOf(listed[j]) <= DateOf(listed[k]);
  }

  lemma EarliestListed(text: TextOps, db: Db, org: nat, cutoff: int, k: nat, i: nat)
    requires k < |Listed(text, db, org, cutoff)| && Eligible(db, org, cutoff, i)
    requires Normal(text, db.resumes[i].email.value) == Listed(text, db, org, cutoff)[k].email
    ensures Listed(text, db, org, cutoff)[k].date <= db.resumes[i].createdAt
  {
    var listed := Listed(text, db, org, cutoff);
    ListedAreEligible(text, db, org, cutoff);
    EligibleIsListed(text, db, org, cutoff, i);
    var d :| d in listed && d.email == Normal(text, db.resumes[i].email.value) && d.date <= db.resumes[i].createdAt;
    var m :| 0 <= m < |listed| && listed[m] == d;
    assert m == k by {
      assert EmailOf(listed[m]) == EmailOf(listed[k]);
    }
  }

  /** An address is eligible exactly when some upload of it is older than the cutoff. */
  lemma EligibleIff(text: TextOps, db: Db, org: nat, cutoff: int, key: string)
    ensures key in EligibleKeys(text, db, org, cutoff)
       <==> exists i: nat, at: int :: UploadedAt(text, db, org, key, i, at) && at < cutoff
  {
    if i: nat, at: int :| UploadedAt(text, db, org, key, i, at) && at < cutoff {
      assert Eligible(db, org, cutoff, i);
    }
    if key in EligibleKeys(text, db, org, cutoff) {
      var i: nat :| i < |db.resumes| && Eligible(db, org, cutoff, i) && Normal(text, db.resumes[i].email.value) == key;
      assert UploadedAt(text, db, org, key, i, db.resumes[i].createdAt);
    }
  }

  /** No upload of the address is older than the cutoff. */
  ghost predicate Young(text: TextOps, db: Db, org: nat, key: string, cutoff: int) {
    forall i: nat, at: int :: UploadedAt(text, db, org, key, i, at) ==> at >= cutoff
  }

  lemma YoungIsNotChosen(text: TextOps, db: Db, org: nat, cutoff: int, limit: nat, key: string)
    requires Young(text, db, org, key, cutoff)
    ensures key !in Chosen(text, db, org, cutoff, limit)
  {
    CandidatesCapped(text, db, org, cutoff, limit);
    EligibleIff(text, db, org, cutoff, key);
    assert key in Chosen(text, db, org, cutoff, limit) ==> key in KeySet(Chosen(text, db, org, cutoff, limit));
  }

  /** No run erases an address whose every upload is at the cutoff or after it. */
  lemma YoungIsLeft(text: TextOps, db: Db, org: nat, cutoff: int, limit: nat, other: string)
    requires Lawful(text) && Young(text, db, org, Normal(text, other), cutoff)
    ensures LeftAlone(text, db, RealRun(text, db, org, cutoff, limit).0, org, other,
                      Generates(text, db, org, Chosen(text, db, org, cutoff, limit), Normal(text, other)))
  {
    YoungIsNotChosen(text, db, org, cutoff, limit, Normal(text, other));
    RunLeavesOthers(text, db, org, cutoff, limit, other);
  }

  // ----- runs leave the rest -----

  lemma RunLeaves(text: TextOps, db: Db, org: nat, cutoff: int, limit: nat)
    requires Clean(text, db, org, cutoff)
    ensures var k := |EligibleKeys(text, db, org, cutoff)|;
            var after := RealRun(text, db, org, cutoff, limit).0;
            Clean(text, after, org, cutoff) && |EligibleKeys(text, after, org, cutoff)| == k - Min(k, limit)
  {
    RunErasesOldest(text, db, org, cutoff, limit);
  }

  /** Of clean addresses, min(k, limit) have been erased and the others are left. */
  predicate ErasedFrom(text: TextOps, db: Db, db': Db, org: nat, cutoff: int, limit: nat, erased: nat) {
    Clean(text, db, org, cutoff) ==>
      erased == Min(LeftIn(text, db, org, cutoff), limit)
      && LeftIn(text, db', org, cutoff) == LeftIn(text, db, org, cutoff) - erased
  }

  lemma RunCounts(text: TextOps, db: Db, org: nat, cutoff: int, limit: nat)
    ensures var (db', erased) := RealRun(text, db, org, cutoff, limit);
            ErasedFrom(text, db, db', org, cutoff, limit, erased)
  {
    if Clean(text, db, org, cutoff) {
      RunErasesOldest(text, db, org, cutoff, limit);
    }
  }

  /** The erasures so many runs have room for. */
  function Capacity(limit: nat, runs: nat): (n: nat) {
    if runs == 0 then 0 else Capacity(limit, runs - 1) + limit
  }

  lemma {:induction false} CapacityIsProduct(limit: nat, runs: nat)
    ensures Capacity(limit, runs) == runs * limit
  {
    if runs > 0 {
      CapacityIsProduct(limit, runs - 1);
    }
  }

  lemma DropTwice(k: nat, first: nat, limit: nat)
    ensures Min(k, first) + Min(k - Min(k, first), limit) == Min(k, first + limit)
  {
  }

  function Iterate<S>(step: S -> S, start: S, times: nat): (end: S) {
    if times == 0 then start else step(Iterate(step, start, times - 1))
  }

  /** A step that takes limit off a measure, down to zero, drains it at that pace. */
  lemma {:induction false} Countdown<S(!new)>(
    step: S -> S, good: S -> bool, left: S -> nat, start: S, limit: nat, times: nat)
    requires good(start)
    requires forall s | good(s) :: good(step(s)) && left(step(s)) == left(s) - Min(left(s), limit)
    ensures good(Iterate(step, start, times))
    ensures left(Iterate(step, start, times)) == left(start) - Min(left(start), Capacity(limit, times))
  {
    if times > 0 {
      Countdown(step, good, left, start, limit, times - 1);
      DropTwice(left(start), Capacity(limit, times - 1), limit);
    }
  }

  lemma Drained<S(!new)>(step: S -> S, good: S -> bool, left: S -> nat, start: S, limit: nat, times: nat)
    requires good(start) && limit > 0
    requires forall s | good(s) :: good(step(s)) && left(step(s)) == left(s) - Min(left(s), limit)
    ensures left(Iterate(step, start, times)) == 0 <==> times >= RunsNeeded(left(start), limit)
  {
    Countdown(step, good, left, start, limit, times);
    CapacityIsProduct(limit, times);
    CeilingBound(left(start), limit, times);
  }

  function OneRun(text: TextOps, org: nat, cutoff: int, limit: nat): (step: Db -> Db) {
    (db: Db) => RealRun(text, db, org, cutoff, limit).0
  }

  function RunsNeeded(k: nat, limit: nat): (runs: nat)
    requires limit > 0
  {
    (k + limit - 1) / limit
  }

  /** So many real runs at one cutoff, with no uploads in between. */
  function Repeat(text: TextOps, db: Db, org: nat, cutoff: int, limit: nat, runs: nat): (db': Db) {
    Iterate(OneRun(text, org, cutoff, limit), db, runs)
  }

  function LeftIn(text: TextOps, db: Db, org: nat, cutoff: int): (n: nat) {
    |EligibleKeys(text, db, org, cutoff)|
  }

  function CleanIn(text: TextOps, org: nat, cutoff: int): (good: Db -> bool) {
    (db: Db) => Clean(text, db, org, cutoff)
  }

  function LeftAt(text: TextOps, org: nat, cutoff: int): (left: Db -> nat) {
    (db: Db) => LeftIn(text, db, org, cutoff)
  }

  lemma EachRunLeaves(text: TextOps, org: nat, cutoff: int, limit: nat)
    ensures var step, good := OneRun(text, org, cutoff, limit), CleanIn(text, org, cutoff);
            var left := LeftAt(text, org, cutoff);
            forall d | good(d) :: good(step(d)) && left(step(d)) == left(d) - Min(left(d), limit)
  {
    var step, good, left := OneRun(text, org, cutoff, limit), CleanIn(text, org, cutoff), LeftAt(text, org, cutoff);
    forall d | good(d) ensures good(step(d)) && left(step(d)) == left(d) - Min(left(d), limit) {
      RunLeaves(text, d, org, cutoff, limit);
    }
  }

  /** Repeating at one cutoff leaves nobody after ceil(k / limit) runs, and somebody before. */
  lemma Drains(text: TextOps, db: Db, org: nat, cutoff: int, limit: nat, runs: nat)
    requires Clean(text, db, org, cutoff) && limit > 0
    ensures LeftIn(text, Repeat(text, db, org, cutoff, limit, runs), org, cutoff) == 0
       <==> runs >= RunsNeeded(LeftIn(text, db, org, cutoff), limit)
  {
    EachRunLeaves(text, org, cutoff, limit);
    Drained(OneRun(text, org, cutoff, limit), CleanIn(text, org, cutoff), LeftAt(text, org, cutoff), db, limit, runs);
  }

  // ----- what the clean-address hypothesis is for -----

  predicate RowStays(db: Db, row: Resume, i: nat) {
    i < |db.resumes| && db.resumes[i] == row && row.email.Some?
  }

  /** No address has this normal form. */
  ghost predicate NeverNormal(text: TextOps, key: string) {
    forall e :: Normal(text, e) != key
  }

  lemma {:induction false} UnaskedRowStays(text: TextOps, db: Db, org: nat, emails: seq<string>, row: Resume, i: nat)
    requires RowStays(db, row, i) && NeverNormal(text, text.lower(row.email.value))
    ensures RowStays(EraseAll(text, db, org, emails).0, row, i)
  {
    if emails != [] {
      var before := emails[..|emails| - 1];
      UnaskedRowStays(text, db, org, before, row, i);
      var db' := EraseAll(text, db, org, before).0;
      assert i !in Find(text, db', org, emails[|emails| - 1]).resumes;
    }
  }

  /** A stored address with whitespace around it, lowered, is no normal form: the job keeps listing it
      and never erases it, however often it runs. */
  lemma PaddedNeverDrains(text: TextOps, db: Db, org: nat, cutoff: int, limit: nat, runs: nat, i: nat)
    requires Eligible(db, org, cutoff, i)
    requires NeverNormal(text, text.lower(db.resumes[i].email.value))
    ensures RowStays(Repeat(text, db, org, cutoff, limit, runs), db.resumes[i], i)
  {
    var row := db.resumes[i];
    var step := OneRun(text, org, cutoff, limit);
    var stays := (d: Db) => RowStays(d, row, i);
    assert forall d | stays(d) :: stays(step(d)) by {
      forall d | stays(d) ensures stays(step(d)) {
        UnaskedRowStays(text, d, org, Chosen(text, d, org, cutoff, limit), row, i);
      }
    }
    Kept(step, stays, db, runs);
  }

  lemma {:induction false} Kept<S(!new)>(step: S -> S, good: S -> bool, start: S, times: nat)
    requires good(start) && forall s | good(s) :: good(step(s))
    ensures good(Iterate(step, start, times))
  {
    if times > 0 {
      Kept(step, good, start, times - 1);
    }
  }

  predicate LawsAt(text: TextOps, e: string) {
    && text.lower(text.lower(e)) == text.lower(e)
    && text.strip(text.strip(e)) == text.strip(e)
    && text.strip(text.lower(e)) == text.lower(text.strip(e))
  }

  /** What holds of lower-casing and of stripping whitespace, which has no case. */
  ghost predicate Lawful(text: TextOps) {
    forall e :: LawsAt(text, e)
  }

  /** Stripping changes nothing but, perhaps, letters' case. */
  predicate Unpadded(text: TextOps, email: string) {
    Normal(text, email) == text.lower(email)
  }

  lemma UnpaddedIsClean(text: TextOps, email: string)
    requires Lawful(text) && Unpadded(text, email)
    ensures CleanAddress(text, email)
  {
    assert LawsAt(text, email);
  }

  lemma PaddedIsNoNormalForm(text: TextOps, email: string)
    requires Lawful(text) && !Unpadded(text, email)
    ensures NeverNormal(text, text.lower(email))
  {
    forall e ensures Normal(text, e) != text.lower(email) {
      assert LawsAt(text, e) && LawsAt(text, text.strip(e)) && LawsAt(text, email);
    }
  }

  lemma SomeoneLeft(text: TextOps, db: Db, org: nat, cutoff: int, i: nat)
    requires Eligible(db, org, cutoff, i)
    ensures LeftIn(text, db, org, cutoff) > 0
  {
    assert Normal(text, db.resumes[i].email.value) in EligibleKeys(text, db, org, cutoff);
  }

  lemma PaddedStaysEligible(text: TextOps, db: Db, org: nat, cutoff: int, limit: nat, runs: nat, i: nat)
    requires Lawful(text) && Eligible(db, org, cutoff, i) && !Unpadded(text, db.resumes[i].email.value)
    ensures Eligible(Repeat(text, db, org, cutoff, limit, runs), org, cutoff, i)
  {
    PaddedIsNoNormalForm(text, db.resumes[i].email.value);
    PaddedNeverDrains(text, db, org, cutoff, limit, runs, i);
  }

  /** The job ever drains exactly when no eligible address is stored with whitespace around it. */
  lemma DrainsIff(text: TextOps, db: Db, org: nat, cutoff: int, limit: nat)
    requires Lawful(text) && limit > 0
    ensures (exists runs :: LeftIn(text, Repeat(text, db, org, cutoff, limit, runs), org, cutoff) == 0)
       <==> forall i: nat | i < |db.resumes| && Eligible(db, org, cutoff, i) ::
              Unpadded(text, db.resumes[i].email.value)
  {
    if i: nat :| i < |db.resumes| && Eligible(db, org, cutoff, i) && !Unpadded(text, db.resumes[i].email.value) {
      forall runs ensures LeftIn(text, Repeat(text, db, org, cutoff, limit, runs), org, cutoff) > 0 {
        PaddedStaysEligible(text, db, org, cutoff, limit, runs, i);
        SomeoneLeft(text, Repeat(text, db, org, cutoff, limit, runs), org, cutoff, i);
      }
    } else {
      forall i: nat | i < |db.resumes| && Eligible(db, org, cutoff, i)
        ensures CleanAddress(text, db.resumes[i].email.value)
      {
        UnpaddedIsClean(text, db.resumes[i].email.value);
      }
      Drains(text, db, org, cutoff, limit, RunsNeeded(LeftIn(text, db, org, cutoff), limit));
    }
  }

  function DropSpaces(s: string): (rest: string) {
    if s != [] && s[0] == ' ' then DropSpaces(s[1..]) else s
  }

  lemma {:induction false} DropSpacesTwice(s: string)
    ensures DropSpaces(DropSpaces(s)) == DropSpaces(s)
  {
    if s != [] && s[0] == ' ' {
      DropSpacesTwice(s[1..]);
    }
  }

  /** An instance: where stripping drops leading spaces, an address stored with one never goes. */
  lemma PaddedInstance(limit: nat, runs: nat)
    ensures var text := TextOps(s => s, DropSpaces);
            var db := NoRows().(resumes := [Resume(0, Some(" a"), Redacted, Redacted, 0)]);
            Lawful(text) && LeftIn(text, Repeat(text, db, 0, 1, limit, runs), 0, 1) > 0
  {
    var text := TextOps(s => s, DropSpaces);
    var db := NoRows().(resumes := [Resume(0, Some(" a"), Redacted, Redacted, 0)]);
    forall e ensures LawsAt(text, e) {
      DropSpacesTwice(e);
    }
    assert DropSpaces(" a") == " a"[1..];
    assert |Normal(text, " a")| == 1;
    PaddedStaysEligible(text, db, 0, 1, limit, runs, 0);
    SomeoneLeft(text, Repeat(text, db, 0, 1, limit, runs), 0, 1, 0);
  }

  lemma CeilingBound(k: nat, limit: nat, runs: nat)
    requires limit > 0
    ensures runs * limit >= k <==> runs >= (k + limit - 1) / limit
  {
    var q := (k + limit - 1) / limit;
    var r := (k + limit - 1) % limit;
    assert k + limit - 1 == q * limit + r;
    if runs >= q {
      assert runs * limit >= q * limit;
    } else {
      assert (runs + 1) * limit <= q * limit;
    }
  }
}
