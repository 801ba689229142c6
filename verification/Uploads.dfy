/** The addresses resume uploads store (apps/api/app/routers_resume.py, apps/api/app/text_extract.py), and
    what they mean for the retention job. */
module Uploads {
  import opened Common
  import opened Erasure
  import opened Retention

  /** The characters of the e-mail pattern. */
  predicate AddressChar(c: char) {
    'a' <= c <= 'z' || 'A' <= c <= 'Z' || '0' <= c <= '9'
    || c == '.' || c == '_' || c == '%' || c == '+' || c == '-' || c == '@'
  }

  predicate AddressText(s: string) {
    forall c | c in s :: AddressChar(c)
  }

  /** None of those characters is whitespace. */
  ghost predicate StripsNoAddress(text: TextOps) {
    forall e | AddressText(e) :: text.strip(e) == e
  }

  /** found is the first match of the e-mail pattern in the document, if any. */
  datatype TableEvent =
    | Upload(org: nat, found: Option<string>, filename: string, fullText: string, now: int)
    | EraseRequest(org: nat, email: string)
    | RetentionRun(org: nat, cutoff: int, limit: nat)

  function UploadedRow(text: TextOps, e: TableEvent): (row: Resume)
    requires e.Upload?
  {
    Resume(e.org, if e.found.Some? then Some(text.strip(e.found.value)) else None,
           Original(e.filename), Original(e.fullText), e.now)
  }

  /** An upload adds one row, with the match without its surrounding whitespace for the address, and the texts. */
  lemma UploadIs(text: TextOps, db: Db, org: nat, found: Option<string>, filename: string, fullText: string, now: int)
    ensures var db' := AfterEvent(text, db, Upload(org, found, filename, fullText, now));
            var email := if found.None? then None else Some(text.strip(found.value));
            db' == db.(resumes := db.resumes + [Resume(org, email, Original(filename), Original(fullText), now)])
  {
  }

  function AfterEvent(text: TextOps, db: Db, e: TableEvent): (db': Db) {
    match e
    case Upload(_, _, _, _, _) => db.(resumes := db.resumes + [UploadedRow(text, e)])
    case EraseRequest(org, email) => Erase(text, db, org, email)
    case RetentionRun(org, cutoff, limit) => RealRun(text, db, org, cutoff, limit).0
  }

  function AfterEvents(text: TextOps, db: Db, events: seq<TableEvent>): (db': Db) {
    if events == [] then db
    else AfterEvent(text, AfterEvents(text, db, events[..|events| - 1]), events[|events| - 1])
  }

  predicate FoundByPattern(e: TableEvent) {
    e.Upload? && e.found.Some? ==> AddressText(e.found.value)
  }

  predicate StoresAddresses(db: Db) {
    forall r | r in db.resumes && r.email.Some? :: AddressText(r.email.value)
  }

  lemma EraseStoresAddresses(text: TextOps, db: Db, org: nat, email: string)
    requires StoresAddresses(db)
    ensures StoresAddresses(Erase(text, db, org, email))
  {
    var db' := Erase(text, db, org, email);
    forall r | r in db'.resumes && r.email.Some? ensures AddressText(r.email.value) {
      var i :| 0 <= i < |db'.resumes| && db'.resumes[i] == r;
      assert db.resumes[i] in db.resumes;
    }
  }

  lemma {:induction false} EraseAllStoresAddresses(text: TextOps, db: Db, org: nat, emails: seq<string>)
    requires StoresAddresses(db)
    ensures StoresAddresses(EraseAll(text, db, org, emails).0)
  {
    if emails != [] {
      var k := |emails| - 1;
      EraseAllStoresAddresses(text, db, org, emails[..k]);
      EraseStoresAddresses(text, EraseAll(text, db, org, emails[..k]).0, org, emails[k]);
    }
  }

  lemma EventStoresAddresses(text: TextOps, db: Db, e: TableEvent)
    requires StripsNoAddress(text) && StoresAddresses(db) && FoundByPattern(e)
    ensures StoresAddresses(AfterEvent(text, db, e))
  {
    match e
    case Upload(_, _, _, _, _) =>
    case EraseRequest(org, email) => EraseStoresAddresses(text, db, org, email);
    case RetentionRun(org, cutoff, limit) =>
      EraseAllStoresAddresses(text, db, org, Chosen(text, db, org, cutoff, limit));
  }

  /** Whatever is uploaded, erased and retained, in any order, every stored address is one the pattern matched. */
  lemma {:induction false} EveryRunStoresAddresses(text: TextOps, db: Db, events: seq<TableEvent>)
    requires StripsNoAddress(text) && db.resumes == [] && forall e | e in events :: FoundByPattern(e)
    ensures StoresAddresses(AfterEvents(text, db, events))
  {
    if events != [] {
      var n := |events| - 1;
      assert events == events[..n] + [events[n]];
      EveryRunStoresAddresses(text, db, events[..n]);
      EventStoresAddresses(text, AfterEvents(text, db, events[..n]), events[n]);
    }
  }

  lemma StoredIsClean(text: TextOps, db: Db, org: nat, cutoff: int)
    requires Lawful(text) && StripsNoAddress(text) && StoresAddresses(db)
    ensures Clean(text, db, org, cutoff)
  {
    forall i: nat | i < |db.resumes| && Eligible(db, org, cutoff, i)
      ensures CleanAddress(text, db.resumes[i].email.value)
    {
      assert db.resumes[i] in db.resumes;
      UnpaddedIsClean(text, db.resumes[i].email.value);
    }
  }

  /** So a table only uploads have filled always drains, in ceil(k / limit) runs. */
  lemma UploadsDrain(
    text: TextOps, db: Db, events: seq<TableEvent>, org: nat, cutoff: int, limit: nat, runs: nat)
    requires Lawful(text) && StripsNoAddress(text) && limit > 0
    requires db.resumes == [] && forall e | e in events :: FoundByPattern(e)
    ensures var filled := AfterEvents(text, db, events);
            LeftIn(text, Repeat(text, filled, org, cutoff, limit, runs), org, cutoff) == 0
            <==> runs >= RunsNeeded(LeftIn(text, filled, org, cutoff), limit)
  {
    EveryRunStoresAddresses(text, db, events);
    StoredIsClean(text, AfterEvents(text, db, events), org, cutoff);
    Drains(text, AfterEvents(text, db, events), org, cutoff, limit, runs);
  }
}
