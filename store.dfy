/**
 * The two SQLite tables written by `save_to_db` and `save_question_answer`,
 * seen as abstract stores: `candidates`, keyed by the unique email and
 * filled with INSERT OR IGNORE, and the append-only `interview_log`.
 * Connections, schema creation, ids and timestamps are not modelled.
 */
module Store {
  import opened Optional
  import opened JsonValue

  /** A value as the sqlite3 driver binds it: None, an integer (bools included) or text. */
  datatype SqlValue = SqlNull | SqlInt(i: int) | SqlText(t: string)

  const MinInt64: int := -0x8000_0000_0000_0000
  const MaxInt64: int := 0x7FFF_FFFF_FFFF_FFFF

  /** Binding a decoded JSON value as a statement parameter: lists and dicts cannot be
      bound, nor integers outside 64 bits (the driver raises, and the save is caught). */
  function Bind(j: Json): Option<SqlValue>
  {
    match j
    case Null => Some(SqlNull)
    case Bool(b) => Some(SqlInt(if b then 1 else 0))
    case Num(n) => if MinInt64 <= n <= MaxInt64 then Some(SqlInt(n)) else None
    case Str(s) => Some(SqlText(s))
    case Arr(_) => None
    case Obj(_) => None
  }

  /** One `candidates` row; `techStack` stands for the `json.dumps` text of the list. */
  datatype CandidateRow = CandidateRow(
    name: SqlValue, email: SqlValue, phone: SqlValue, yearsExperience: SqlValue,
    desiredPosition: SqlValue, currentLocation: SqlValue, techStack: Json, consentGiven: bool)

  /** One `interview_log` row. */
  datatype Exchange = Exchange(candidateEmail: SqlValue, question: string, answer: string)

  /** The contents of both tables. */
  datatype Db = Db(candidates: map<SqlValue, CandidateRow>, log: seq<Exchange>)

  function EmptyDb(): Db
  {
    Db(map[], [])
  }

  /** The row `save_to_db` binds, or None when some parameter cannot be bound. */
  function ToRow(info: map<string, Json>, consentGiven: bool): Option<CandidateRow>
  {
    var name, email, phone := Bind(Get(info, "name")), Bind(Get(info, "email")), Bind(Get(info, "phone"));
    var years := Bind(Get(info, "years_experience"));
    var position, location := Bind(Get(info, "desired_position")), Bind(Get(info, "current_location"));
    if name.Some? && email.Some? && phone.Some? && years.Some? && position.Some? && location.Some? then
      Some(CandidateRow(name.value, email.value, phone.value, years.value,
                        position.value, location.value, Get(info, "tech_stack"), consentGiven))
    else None
  }

  /** INSERT OR IGNORE into `candidates`: a row whose email is already stored, or that breaks
      a NOT NULL column, is dropped; an unbindable row raises and nothing is written. */
  function SaveCandidate(db: Db, info: map<string, Json>, consentGiven: bool): Db
  {
    match ToRow(info, consentGiven)
    case None => db
    case Some(row) =>
      if row.name == SqlNull || row.email == SqlNull || row.yearsExperience == SqlNull
         || row.email in db.candidates
      then db
      else db.(candidates := db.candidates[row.email := row])
  }

  /** INSERT into `interview_log`: an unbindable or None email raises and nothing is written. */
  function AppendExchange(db: Db, email: Json, question: string, answer: string): Db
  {
    match Bind(email)
    case Some(e) => if e == SqlNull then db else db.(log := db.log + [Exchange(e, question, answer)])
    case None => db
  }

  /** A profile that can be stored under its email. */
  predicate Storable(info: map<string, Json>)
  {
    var row := ToRow(info, true);
    row.Some? && row.value.name != SqlNull && row.value.email != SqlNull && row.value.yearsExperience != SqlNull
  }

  /** Saving never changes or removes a stored row; the only row it can add is the one
      for the profile's own email, and the log is untouched. */
  lemma SaveCandidateKeepsRows(db: Db, info: map<string, Json>, consentGiven: bool)
    ensures var db' := SaveCandidate(db, info, consentGiven);
      db'.log == db.log &&
      (forall e :: e in db.candidates ==> e in db'.candidates && db'.candidates[e] == db.candidates[e]) &&
      (forall e :: e in db'.candidates && e !in db.candidates ==>
         ToRow(info, consentGiven).Some? && e == ToRow(info, consentGiven).value.email)
  {
  }

  /** A storable profile whose email is new gets its row; one whose email is stored does not. */
  lemma SaveCandidateInserts(db: Db, info: map<string, Json>, consentGiven: bool)
    requires Storable(info)
    ensures var row := ToRow(info, consentGiven).value;
      var db' := SaveCandidate(db, info, consentGiven);
      row.email in db'.candidates &&
      db'.candidates[row.email] == (if row.email in db.candidates then db.candidates[row.email] else row)
  {
  }

  /** Saving twice under the same email keeps the first profile (duplicates are ignored). */
  lemma SaveTwiceKeepsFirst(db: Db, first: map<string, Json>, second: map<string, Json>)
    requires Storable(first)
    requires Get(first, "email") == Get(second, "email")
    requires ToRow(first, true).value.email !in db.candidates
    ensures var db' := SaveCandidate(SaveCandidate(db, first, true), second, true);
      db'.candidates == db.candidates[ToRow(first, true).value.email := ToRow(first, true).value]
  {
  }

  /** The log only grows, by exactly the new exchange when the email can be stored. */
  lemma AppendExchangeSpec(db: Db, email: Json, question: string, answer: string)
    ensures var db' := AppendExchange(db, email, question, answer);
      db'.candidates == db.candidates &&
      db'.log == db.log + (if Bind(email).Some? && Bind(email).value != SqlNull
                           then [Exchange(Bind(email).value, question, answer)] else [])
  {
  }

  /** The database's two tables, as abstract state written one row at a time. */
  class Database {
    ghost var candidates: map<SqlValue, CandidateRow>
    ghost var log: seq<Exchange>

    ghost function Contents(): Db
      reads this
    {
      Db(candidates, log)
    }

    /** `init_db` on a fresh file: both tables empty. */
    constructor ()
      ensures Contents() == EmptyDb()
    {
      candidates, log := map[], [];
    }

    /** `save_to_db(user_info, consent_given)`. */
    method SaveToDb(info: map<string, Json>, consentGiven: bool)
      modifies this
      ensures Contents() == SaveCandidate(old(Contents()), info, consentGiven)
    {
      var db := SaveCandidate(Db(candidates, log), info, consentGiven);
      candidates := db.candidates;
    }

    /** `save_question_answer(email, question, answer)`. */
    method SaveQuestionAnswer(email: Json, question: string, answer: string)
      modifies this
      ensures Contents() == AppendExchange(old(Contents()), email, question, answer)
    {
      var db := AppendExchange(Db(candidates, log), email, question, answer);
      log := db.log;
    }
  }
}
