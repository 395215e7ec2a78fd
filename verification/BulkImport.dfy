/** Importing a roster: Import, processRow, indexHeader and normalizePhone of
    internal/bulkimport/service.go, for one tenant. encoding/csv hands over a record or a
    parse error at a time. */
module BulkImport {
  import opened Wrappers

  // ----- Text -----

  /** unicode.IsSpace */
  predicate IsSpace(c: char) {
    || '\t' <= c <= '\r' || c == ' ' || c == '\U{85}' || c == '\U{A0}' || c == '\U{1680}'
    || '\U{2000}' <= c <= '\U{200A}' || c == '\U{2028}' || c == '\U{2029}' || c == '\U{202F}'
    || c == '\U{205F}' || c == '\U{3000}'
  }

  function TrimSpace(s: string): string {
    if s == "" then ""
    else if IsSpace(s[0]) then TrimSpace(s[1..])
    else if IsSpace(s[|s|-1]) then TrimSpace(s[..|s|-1])
    else s
  }

  /** The letters whose lower case is an ASCII letter; the results are only compared with
      ASCII words. */
  function ToLower(s: string): string {
    if s == "" then ""
    else
      [if 'A' <= s[0] <= 'Z' then ((s[0] as int) + 32) as char
       else if s[0] == '\U{130}' then 'i' else if s[0] == '\U{212A}' then 'k' else s[0]] + ToLower(s[1..])
  }

  function Remove(s: string, c: char): (r: string)
    ensures c !in r
  {
    if s == "" then "" else (if s[0] == c then "" else [s[0]]) + Remove(s[1..], c)
  }

  function NormalizePhone(raw: string): string {
    Remove(Remove(TrimSpace(raw), ' '), '-')
  }

  predicate IsDigits(s: string) {
    forall i :: 0 <= i < |s| ==> '0' <= s[i] <= '9'
  }

  /** ^\+?[0-9]{7,15}$ */
  predicate PhoneOk(s: string) {
    var digits := if s != "" && s[0] == '+' then s[1..] else s;
    7 <= |digits| <= 15 && IsDigits(digits)
  }

  lemma {:induction false} RemoveNothing(s: string, c: char)
    requires c !in s
    ensures Remove(s, c) == s
  {
    if s != "" {
      RemoveNothing(s[1..], c);
    }
  }

  lemma PhoneChars(phone: string)
    requires PhoneOk(phone)
    ensures phone != "" && forall c :: c in phone ==> c == '+' || '0' <= c <= '9'
  {
    var digits := if phone[0] == '+' then phone[1..] else phone;
    assert phone == if phone[0] == '+' then ['+'] + digits else digits;
    assert forall c :: c in digits ==> '0' <= c <= '9';
  }

  /** A phone that passes the check is its own normal form, so the next import looks up
      what this one stored. */
  lemma StoredPhoneStable(phone: string)
    requires PhoneOk(phone)
    ensures NormalizePhone(phone) == phone
  {
    PhoneChars(phone);
    assert phone[0] in phone && phone[|phone|-1] in phone;
    assert TrimSpace(phone) == phone;
    RemoveNothing(phone, ' ');
    RemoveNothing(phone, '-');
  }

  // ----- What the text functions mean -----

  /** White space, as Unicode and Go have it. */
  lemma SpacesAre(c: char)
    ensures IsSpace(c) <==>
            c as int in {9, 10, 11, 12, 13, 32, 0x85, 0xA0, 0x1680, 0x2000, 0x2001, 0x2002, 0x2003, 0x2004, 0x2005,
                         0x2006, 0x2007, 0x2008, 0x2009, 0x200A, 0x2028, 0x2029, 0x202F, 0x205F, 0x3000}
  {
  }

  predicate AllSpace(s: string) {
    forall c :: c in s ==> IsSpace(c)
  }

  predicate Trimmed(s: string) {
    s != "" ==> !IsSpace(s[0]) && !IsSpace(s[|s|-1])
  }

  predicate Around(text: string, before: string, core: string, after: string) {
    text == before + core + after && AllSpace(before) && AllSpace(after)
  }

  /** The text is `core` with white space around it. */
  ghost predicate Padded(text: string, core: string) {
    Trimmed(core) && exists before, after :: Around(text, before, core, after)
  }

  /** TrimSpace finds the one core of a text. */
  lemma {:induction false} TrimIff(text: string, core: string)
    ensures TrimSpace(text) == core <==> Padded(text, core)
  {
    TrimPads(text);
    if Padded(text, core) {
      var before, after :| Around(text, before, core, after);
      TrimPadded(before, core, after);
    }
  }

  lemma {:induction false} TrimPads(text: string)
    ensures Padded(text, TrimSpace(text))
  {
    if text == "" {
      assert Around(text, "", "", "");
    } else if IsSpace(text[0]) {
      TrimPads(text[1..]);
      PadLeft(text, TrimSpace(text[1..]));
    } else if IsSpace(text[|text|-1]) {
      TrimPads(text[..|text|-1]);
      PadRight(text, TrimSpace(text[..|text|-1]));
    } else {
      assert Around(text, "", text, "");
    }
  }

  lemma PadLeft(text: string, core: string)
    requires text != "" && IsSpace(text[0]) && Padded(text[1..], core)
    ensures Padded(text, core)
  {
    var before, after :| Around(text[1..], before, core, after);
    assert text == [text[0]] + text[1..];
    assert Around(text, [text[0]] + before, core, after);
  }

  lemma PadRight(text: string, core: string)
    requires text != "" && IsSpace(text[|text|-1]) && Padded(text[..|text|-1], core)
    ensures Padded(text, core)
  {
    var before, after :| Around(text[..|text|-1], before, core, after);
    assert text == text[..|text|-1] + [text[|text|-1]];
    assert Around(text, before, core, after + [text[|text|-1]]);
  }

  lemma {:induction false} TrimPadded(before: string, core: string, after: string)
    requires Trimmed(core) && AllSpace(before) && AllSpace(after)
    ensures TrimSpace(before + core + after) == core
    decreases |before| + |after|
  {
    var text := before + core + after;
    if before != "" {
      assert text[0] == before[0] && before[0] in before;
      assert text[1..] == before[1..] + core + after;
      TrimPadded(before[1..], core, after);
    } else if after != "" {
      assert after[0] in after && after[|after|-1] in after && text[|text|-1] == after[|after|-1];
      assert text[..|text|-1] == before + core + after[..|after|-1];
      TrimPadded(before, core, after[..|after|-1]);
      if core == "" {
        assert text[0] == after[0] && text[1..] == before + core + after[1..];
        TrimPadded(before, core, after[1..]);
      } else {
        assert text[0] == core[0];
      }
    } else {
      assert text == core;
    }
  }

  /** `s` is `p` with spaces and dashes put in anywhere. */
  predicate Strewn(s: string, p: string) {
    if s == "" then p == ""
    else if s[0] == ' ' || s[0] == '-' then Strewn(s[1..], p)
    else p != "" && p[0] == s[0] && Strewn(s[1..], p[1..])
  }

  lemma RemoveFirst(s: string, c: char)
    requires s != ""
    ensures s[0] == c ==> Remove(s, c) == Remove(s[1..], c)
    ensures s[0] != c ==> Remove(s, c) == [s[0]] + Remove(s[1..], c)
  {
  }

  lemma {:induction false} RemoveBoth(s: string, p: string)
    ensures Remove(Remove(s, ' '), '-') == p <==> Strewn(s, p)
  {
    if s != "" {
      var rest := Remove(s[1..], ' ');
      RemoveFirst(s, ' ');
      if s[0] == ' ' {
        RemoveBoth(s[1..], p);
      } else {
        var one := [s[0]] + rest;
        assert one[1..] == rest;
        RemoveFirst(one, '-');
        if s[0] == '-' {
          RemoveBoth(s[1..], p);
        } else if p != "" {
          RemoveBoth(s[1..], p[1..]);
          SameHead(s[0], Remove(rest, '-'), p);
        }
      }
    }
  }

  lemma SameHead(c: char, rest: string, p: string)
    requires p != ""
    ensures [c] + rest == p <==> p[0] == c && rest == p[1..]
  {
    assert p == [p[0]] + p[1..] && ([c] + rest)[1..] == rest;
  }

  /** A phone is normalised to `p` exactly when it is `p` with spaces and dashes put in, and
      white space around it; so every other character is kept, in order. */
  lemma NormalizeIff(text: string, core: string, p: string)
    requires Padded(text, core)
    ensures NormalizePhone(text) == p <==> Strewn(core, p)
  {
    TrimIff(text, core);
    RemoveBoth(core, p);
  }

  /** An optional plus and 7 to 15 digits. */
  lemma PhoneOkIff(s: string)
    ensures PhoneOk(s) <==> exists digits :: IsPhone(s, digits)
  {
    if PhoneOk(s) {
      if s[0] == '+' {
        assert s == "+" + s[1..];
        assert IsPhone(s, s[1..]);
      } else {
        assert IsPhone(s, s);
      }
    }
    if d :| IsPhone(s, d) {
      if s == "+" + d {
        assert s[1..] == d;
      }
    }
  }

  ghost predicate IsPhone(s: string, digits: string) {
    && (s == digits || s == "+" + digits) && 7 <= |digits| <= 15
    && forall i :: 0 <= i < |digits| ==> digits[i] as int in {48, 49, 50, 51, 52, 53, 54, 55, 56, 57}
  }

  /** ASCII capitals become small letters, other ASCII characters stay. */
  lemma {:induction false} ToLowerAt(s: string, i: nat)
    requires i < |s|
    ensures |ToLower(s)| == |s|
    ensures s[i] as int < 128 ==>
              ToLower(s)[i] as int == s[i] as int + if 65 <= s[i] as int <= 90 then 32 else 0
  {
    if |s| > 1 {
      ToLowerAt(s[1..], if i > 0 then i - 1 else 0);
    }
  }

  // ----- The header -----

  datatype Columns = Columns(phone: int, name: int, email: int, role: int, batchCode: int)

  /** `i` is the last column with one of two titles; -1 when there is none. */
  predicate IsLast(header: seq<string>, title: string, alias: string, i: int) {
    && -1 <= i < |header|
    && (i >= 0 ==> Titled(header[i], title, alias))
    && forall j :: i < j < |header| ==> 0 <= j ==> !Titled(header[j], title, alias)
  }

  predicate Titled(raw: string, title: string, alias: string) {
    ToLower(TrimSpace(raw)) == title || ToLower(TrimSpace(raw)) == alias
  }

  predicate Indexed(header: seq<string>, c: Columns) {
    && IsLast(header, "phone", "phone", c.phone) && IsLast(header, "name", "full_name", c.name)
    && IsLast(header, "email", "email", c.email) && IsLast(header, "role", "role", c.role)
    && IsLast(header, "batch_code", "batch", c.batchCode)
  }

  predicate HasTitle(header: seq<string>, title: string, alias: string) {
    exists i :: 0 <= i < |header| && Titled(header[i], title, alias)
  }

  method IndexHeader(header: seq<string>) returns (r: Option<Columns>)
    ensures r.Some? <==> HasTitle(header, "phone", "phone") && HasTitle(header, "name", "full_name")
    ensures r.Some? ==> Indexed(header, r.value) && r.value.phone >= 0 && r.value.name >= 0
  {
    var idx := Columns(-1, -1, -1, -1, -1);
    for i := 0 to |header|
      invariant Indexed(header[..i], idx)
    {
      ghost var before := idx;
      var title := ToLower(TrimSpace(header[i]));
      if title == "phone" {
        idx := idx.(phone := i);
      } else if title == "name" || title == "full_name" {
        idx := idx.(name := i);
      } else if title == "email" {
        idx := idx.(email := i);
      } else if title == "role" {
        idx := idx.(role := i);
      } else if title == "batch_code" || title == "batch" {
        idx := idx.(batchCode := i);
      }
      NextColumns(header, i, before, idx);
    }
    assert header[..|header|] == header;
    if idx.phone < 0 || idx.name < 0 {
      return None;
    }
    return Some(idx);
  }

  lemma NextColumn(header: seq<string>, i: nat, title: string, alias: string, last: int)
    requires i < |header| && IsLast(header[..i], title, alias, last)
    ensures IsLast(header[..i + 1], title, alias, if Titled(header[i], title, alias) then i else last)
  {
    assert header[..i + 1] == header[..i] + [header[i]];
  }

  lemma NextColumns(header: seq<string>, i: nat, before: Columns, idx: Columns)
    requires i < |header| && Indexed(header[..i], before)
    requires idx.phone == if Titled(header[i], "phone", "phone") then i else before.phone
    requires idx.name == if Titled(header[i], "name", "full_name") then i else before.name
    requires idx.email == if Titled(header[i], "email", "email") then i else before.email
    requires idx.role == if Titled(header[i], "role", "role") then i else before.role
    requires idx.batchCode == if Titled(header[i], "batch_code", "batch") then i else before.batchCode
    ensures Indexed(header[..i + 1], idx)
  {
    NextColumn(header, i, "phone", "phone", before.phone);
    NextColumn(header, i, "name", "full_name", before.name);
    NextColumn(header, i, "email", "email", before.email);
    NextColumn(header, i, "role", "role", before.role);
    NextColumn(header, i, "batch_code", "batch", before.batchCode);
  }

  // ----- Rows -----

  datatype Record = ParseError | Fields(fields: seq<string>)

  datatype Reason = CsvParse | RoleNotAllowed | InvalidPhone | NameRequired | InsertFailed

  /** What a row says, before the database is asked. */
  datatype Reading = Bad(phone: string, why: Reason) | Good(phone: string, name: string, email: string, role: string)

  function Get(row: seq<string>, i: int): string {
    if i < 0 || i >= |row| then "" else TrimSpace(row[i])
  }

  function Read(cols: Columns, rec: Record): Reading {
    if rec.ParseError? then Bad("", CsvParse)
    else
      var phone := NormalizePhone(Get(rec.fields, cols.phone));
      var name := Get(rec.fields, cols.name);
      var given := ToLower(Get(rec.fields, cols.role));
      var role := if given == "" then "student" else given;
      if role != "student" && role != "instructor" then Bad(phone, RoleNotAllowed)
      else if !PhoneOk(phone) then Bad(phone, InvalidPhone)
      else if name == "" then Bad(phone, NameRequired)
      else Good(phone, name, Get(rec.fields, cols.email), role)
  }

  /** The cell of a column, without the white space around it; a missing cell is blank. */
  ghost predicate Cell(row: seq<string>, column: int, text: string) {
    if 0 <= column < |row| then Padded(row[column], text) else text == ""
  }

  /** How a row reads: a phone with spaces and dashes put in is that phone, a blank role is a
      student's, and the first thing wrong among role, phone and name is the error. */
  lemma ReadIs(cols: Columns, row: seq<string>, phone: string, p: string, name: string, email: string, role: string)
    requires Cell(row, cols.phone, phone) && Strewn(phone, p) && Cell(row, cols.name, name)
    requires Cell(row, cols.email, email) && Cell(row, cols.role, role)
    ensures Read(cols, Fields(row))
         == if role != "" && ToLower(role) != "student" && ToLower(role) != "instructor" then Bad(p, RoleNotAllowed)
            else if !exists digits :: IsPhone(p, digits) then Bad(p, InvalidPhone)
            else if name == "" then Bad(p, NameRequired)
            else Good(p, name, email, if role == "" || ToLower(role) == "student" then "student" else "instructor")
  {
    PhoneCell(row, cols.phone, phone, p);
    CellIs(row, cols.name, name);
    CellIs(row, cols.email, email);
    CellIs(row, cols.role, role);
    PhoneOkIff(p);
    if role != "" {
      ToLowerAt(role, 0);
    }
  }

  lemma CellIs(row: seq<string>, column: int, text: string)
    requires Cell(row, column, text)
    ensures Get(row, column) == text
  {
    if 0 <= column < |row| {
      TrimIff(row[column], text);
    }
  }

  lemma PhoneCell(row: seq<string>, column: int, phone: string, p: string)
    requires Cell(row, column, phone) && Strewn(phone, p)
    ensures NormalizePhone(Get(row, column)) == p
  {
    if 0 <= column < |row| {
      GetNormalised(row[column], phone, p);
    } else {
      assert Around("", "", "", "");
      NormalizeIff("", "", p);
    }
  }

  /** A cell is trimmed before its phone is normalised, which trims it again. */
  lemma GetNormalised(cell: string, core: string, p: string)
    requires Padded(cell, core) && Strewn(core, p)
    ensures NormalizePhone(TrimSpace(cell)) == p
  {
    TrimIff(cell, core);
    assert Around(core, "", core, "");
    NormalizeIff(core, core, p);
  }

  // ----- The database -----

  datatype User = User(name: string, email: string)

  /** The tenant's users by phone, the keys of the index on lower(email), and the
      (phone, role) pairs of tenant_users. */
  datatype Db = Db(users: map<string, User>, emails: set<string>, roles: set<(string, string)>)

  /** Row numbers at which a query fails for reasons of its own. */
  datatype Faults = Faults(lookup: set<nat>, insert: set<nat>, rename: set<nat>, role: set<nat>)

  type Fold = string -> string   // lower() of the database

  predicate EmailTaken(fold: Fold, db: Db, email: string) {
    email != "" && fold(email) in db.emails
  }

  predicate InsertFails(fold: Fold, db: Db, faults: Faults, n: nat, phone: string, email: string) {
    n in faults.insert || phone in db.users || EmailTaken(fold, db, email)
  }

  datatype Outcome = Created | Updated | Skipped(phone: string, why: Reason)

  function WithRole(db: Db, faults: Faults, n: nat, phone: string, role: string): Db {
    if n in faults.role then db else db.(roles := db.roles + {(phone, role)})
  }

  function Process(fold: Fold, db: Db, faults: Faults, n: nat, r: Reading): (Db, Outcome) {
    match r
    case Bad(phone, why) => (db, Skipped(phone, why))
    case Good(phone, name, email, role) =>
      if phone in db.users && n !in faults.lookup then
        var renamed := if n in faults.rename then db
                       else db.(users := db.users[phone := db.users[phone].(name := name)]);
        (WithRole(renamed, faults, n, phone, role), Updated)
      else if InsertFails(fold, db, faults, n, phone, email) then (db, Skipped(phone, InsertFailed))
      else
        var added := db.(users := db.users[phone := User(name, email)],
                         emails := if email == "" then db.emails else db.emails + {fold(email)});
        (WithRole(added, faults, n, phone, role), Created)
  }

  /** All rows in order; the first data row has number 2. */
  function Run(fold: Fold, db: Db, faults: Faults, rows: seq<Reading>): (r: (Db, seq<Outcome>))
    ensures |r.1| == |rows|
  {
    if rows == [] then (db, [])
    else
      var so := Run(fold, db, faults, rows[..|rows|-1]);
      var next := Process(fold, so.0, faults, |rows| + 1, rows[|rows|-1]);
      (next.0, so.1 + [next.1])
  }

  function Readings(cols: Columns, records: seq<Record>): seq<Reading> {
    seq(|records|, i requires 0 <= i < |records| => Read(cols, records[i]))
  }

  // ----- Counting -----

  datatype RowError = RowError(row: nat, phone: string, why: Reason)

  datatype Kind = IsCreated | IsUpdated | IsSkipped

  function KindOf(o: Outcome): Kind {
    match o case Created => IsCreated case Updated => IsUpdated case Skipped(_, _) => IsSkipped
  }

  function Count(k: Kind, outcomes: seq<Outcome>): nat {
    if outcomes == [] then 0
    else Count(k, outcomes[..|outcomes|-1]) + if KindOf(outcomes[|outcomes|-1]) == k then 1 else 0
  }

  function Errors(outcomes: seq<Outcome>): seq<RowError> {
    if outcomes == [] then []
    else
      var last := outcomes[|outcomes|-1];
      Errors(outcomes[..|outcomes|-1]) + if last.Skipped? then [RowError(|outcomes| + 1, last.phone, last.why)] else []
  }

  class Result {
    var created: nat
    var updated: nat
    var skipped: nat
    var rowErrors: seq<RowError>

    constructor ()
      ensures created == updated == skipped == 0 && rowErrors == []
    {
      created, updated, skipped, rowErrors := 0, 0, 0, [];
    }

    ghost predicate Reports(outcomes: seq<Outcome>)
      reads this
    {
      && created == Count(IsCreated, outcomes) && updated == Count(IsUpdated, outcomes)
      && skipped == Count(IsSkipped, outcomes) && rowErrors == Errors(outcomes)
    }
  }

  lemma ReportNext(outcomes: seq<Outcome>, o: Outcome)
    ensures forall k :: Count(k, outcomes + [o]) == Count(k, outcomes) + if KindOf(o) == k then 1 else 0
    ensures Errors(outcomes + [o])
         == Errors(outcomes) + if o.Skipped? then [RowError(|outcomes| + 2, o.phone, o.why)] else []
  {
    assert (outcomes + [o])[..|outcomes|] == outcomes;
  }

  class Service {
    const fold: Fold
    var db: Db

    constructor (fold: Fold, db: Db)
      ensures this.fold == fold && this.db == db
    {
      this.fold, this.db := fold, db;
    }

    method AddTenantUser(faults: Faults, n: nat, phone: string, role: string)
      modifies this
      ensures db == WithRole(old(db), faults, n, phone, role)
    {
      if n !in faults.role {
        db := db.(roles := db.roles + {(phone, role)});
      }
    }

    method ProcessRow(row: seq<string>, idx: Columns, n: nat, out: Result, faults: Faults, ghost outcomes: seq<Outcome>)
      requires out.Reports(outcomes) && n == |outcomes| + 2
      modifies this, out
      ensures var next := Process(fold, old(db), faults, n, Read(idx, Fields(row)));
              db == next.0 && out.Reports(outcomes + [next.1])
    {
      ghost var next := Process(fold, db, faults, n, Read(idx, Fields(row)));
      ReportNext(outcomes, next.1);
      var phone := NormalizePhone(Get(row, idx.phone));
      var name := Get(row, idx.name);
      var email := Get(row, idx.email);
      var role := ToLower(Get(row, idx.role));
      if role == "" {
        role := "student";
      }
      if role != "student" && role != "instructor" {
        out.rowErrors := out.rowErrors + [RowError(n, phone, RoleNotAllowed)];
        out.skipped := out.skipped + 1;
        return;
      }
      if !PhoneOk(phone) {
        out.rowErrors := out.rowErrors + [RowError(n, phone, InvalidPhone)];
        out.skipped := out.skipped + 1;
        return;
      }
      if name == "" {
        out.rowErrors := out.rowErrors + [RowError(n, phone, NameRequired)];
        out.skipped := out.skipped + 1;
        return;
      }
      SaveRow(phone, name, email, role, n, out, faults, outcomes);
    }

    /** The queries of processRow, for a row in order. */
    method SaveRow(phone: string, name: string, email: string, role: string, n: nat, out: Result, faults: Faults,
                   ghost outcomes: seq<Outcome>)
      requires out.Reports(outcomes) && n == |outcomes| + 2
      modifies this, out
      ensures var next := Process(fold, old(db), faults, n, Good(phone, name, email, role));
              db == next.0 && out.Reports(outcomes + [next.1])
    {
      ghost var next := Process(fold, db, faults, n, Good(phone, name, email, role));
      ReportNext(outcomes, next.1);
      if phone in db.users && n !in faults.lookup {
        if n !in faults.rename {
          db := db.(users := db.users[phone := db.users[phone].(name := name)]);
        }
        AddTenantUser(faults, n, phone, role);
        out.updated := out.updated + 1;
        return;
      }
      if n in faults.insert || phone in db.users || (email != "" && fold(email) in db.emails) {
        out.rowErrors := out.rowErrors + [RowError(n, phone, InsertFailed)];
        out.skipped := out.skipped + 1;
        return;
      }
      db := db.(users := db.users[phone := User(name, email)],
                emails := if email == "" then db.emails else db.emails + {fold(email)});
      AddTenantUser(faults, n, phone, role);
      out.created := out.created + 1;
    }

    /** `header` is None when the header line cannot be read. */
    method Import(header: Option<seq<string>>, records: seq<Record>, faults: Faults)
      returns (out: Option<Result>, ghost cols: Columns, ghost outcomes: seq<Outcome>)
      modifies this
      ensures out.Some? <==>
              && header.Some?
              && HasTitle(header.value, "phone", "phone") && HasTitle(header.value, "name", "full_name")
      ensures out.None? ==> db == old(db)
      ensures out.Some? ==>
                && fresh(out.value) && Indexed(header.value, cols)
                && (db, outcomes) == Run(fold, old(db), faults, Readings(cols, records))
                && out.value.Reports(outcomes)
      ensures out.Some? ==>
                && out.value.created + out.value.updated + out.value.skipped == |records|
                && out.value.skipped == |out.value.rowErrors|
    {
      cols, outcomes := Columns(-1, -1, -1, -1, -1), [];
      if header.None? {
        return None, cols, [];
      }
      var idx := IndexHeader(header.value);
      if idx.None? {
        return None, cols, [];
      }
      cols := idx.value;
      var res := new Result();
      ghost var rows := Readings(cols, records);
      var rowNum := 1;
      var i := 0;
      assert rows[..0] == [];
      while true
        invariant 0 <= i <= |records| && rowNum == i + 1 && fresh(res)
        invariant (db, outcomes) == Run(fold, old(db), faults, rows[..i])
        invariant res.Reports(outcomes)
        decreases |records| - i
      {
        rowNum := rowNum + 1;
        if i == |records| {
          break;
        }
        RunNext(fold, old(db), faults, rows, i);
        ghost var next := Process(fold, db, faults, rowNum, Read(cols, records[i]));
        if records[i].ParseError? {
          ReportNext(outcomes, Skipped("", CsvParse));
          res.rowErrors := res.rowErrors + [RowError(rowNum, "", CsvParse)];
          res.skipped := res.skipped + 1;
        } else {
          ProcessRow(records[i].fields, idx.value, rowNum, res, faults, outcomes);
        }
        outcomes := outcomes + [next.1];
        i := i + 1;
      }
      assert rows[..i] == rows;
      SumsUp(outcomes);
      return Some(res), cols, outcomes;
    }
  }

  lemma RunNext(fold: Fold, db: Db, faults: Faults, rows: seq<Reading>, i: nat)
    requires i < |rows|
    ensures var so := Run(fold, db, faults, rows[..i]);
            var next := Process(fold, so.0, faults, i + 2, rows[i]);
            Run(fold, db, faults, rows[..i + 1]) == (next.0, so.1 + [next.1])
  {
    assert rows[..i + 1][..i] == rows[..i];
  }

  /** The counts add up to the rows, and each skipped row has one error. */
  lemma {:induction false} SumsUp(outcomes: seq<Outcome>)
    ensures Count(IsCreated, outcomes) + Count(IsUpdated, outcomes) + Count(IsSkipped, outcomes) == |outcomes|
    ensures |Errors(outcomes)| == Count(IsSkipped, outcomes)
  {
    if outcomes != [] {
      SumsUp(outcomes[..|outcomes|-1]);
    }
  }

  predicate Names(e: RowError, outcomes: seq<Outcome>) {
    2 <= e.row <= |outcomes| + 1 && outcomes[e.row - 2] == Skipped(e.phone, e.why)
  }

  /** The errors are, strictly increasing, those of exactly the skipped rows. */
  lemma {:induction false} ErrorRows(outcomes: seq<Outcome>)
    ensures forall i, j :: 0 <= i < j < |Errors(outcomes)| ==> Errors(outcomes)[i].row < Errors(outcomes)[j].row
    ensures forall e :: e in Errors(outcomes) ==> Names(e, outcomes)
    ensures forall k :: 0 <= k < |outcomes| && outcomes[k].Skipped? ==>
              RowError(k + 2, outcomes[k].phone, outcomes[k].why) in Errors(outcomes)
  {
    if outcomes != [] {
      var front, last := outcomes[..|outcomes|-1], outcomes[|outcomes|-1];
      ErrorRows(front);
      var before, all := Errors(front), Errors(outcomes);
      assert all == before + if last.Skipped? then [RowError(|outcomes| + 1, last.phone, last.why)] else [];
      forall i, j | 0 <= i < j < |all| ensures all[i].row < all[j].row {
        assert before[i] in before;
        assert Names(before[i], front);
      }
      forall e | e in all ensures Names(e, outcomes) {
        if e in before {
          assert Names(e, front);
        }
      }
      forall k | 0 <= k < |outcomes| && outcomes[k].Skipped?
        ensures RowError(k + 2, outcomes[k].phone, outcomes[k].why) in all
      {
        if k < |front| {
          assert front[k] == outcomes[k];
        }
      }
    }
  }

  // ----- Who is created -----

  /** The phones of the rows that are in order. */
  function GoodPhones(rows: seq<Reading>): set<string> {
    if rows == [] then {}
    else GoodPhones(rows[..|rows|-1]) + if rows[|rows|-1].Good? then {rows[|rows|-1].phone} else {}
  }

  predicate NoInsertFailure(outcomes: seq<Outcome>) {
    forall o :: o in outcomes && o.Skipped? ==> o.why != InsertFailed
  }

  lemma ProcessKeys(fold: Fold, db: Db, faults: Faults, n: nat, r: Reading)
    ensures var next := Process(fold, db, faults, n, r);
            && (next.1.Created? ==> r.Good? && r.phone !in db.users && next.0.users.Keys == db.users.Keys + {r.phone})
            && (!next.1.Created? ==> next.0.users.Keys == db.users.Keys)
            && (r.Good? && !next.1.Skipped? ==> r.phone in next.0.users)
            && db.emails <= next.0.emails
            && (next.1.Updated? ==> next.0.emails == db.emails)
  {
  }

  /** Whatever fails, one user is added for each row counted as created, and only phones
      of rows in order are added. */
  lemma {:induction false} CreatedAreAdded(fold: Fold, db: Db, faults: Faults, rows: seq<Reading>)
    ensures var r := Run(fold, db, faults, rows);
            && |r.0.users.Keys| == |db.users.Keys| + Count(IsCreated, r.1)
            && db.users.Keys <= r.0.users.Keys <= db.users.Keys + GoodPhones(rows)
  {
    if rows != [] {
      var front := rows[..|rows|-1];
      CreatedAreAdded(fold, db, faults, front);
      var so := Run(fold, db, faults, front);
      ProcessKeys(fold, so.0, faults, |rows| + 1, rows[|rows|-1]);
      var r := Run(fold, db, faults, rows);
      assert r.1[..|r.1|-1] == so.1;
    }
  }

  lemma {:induction false} GoodAreKnown(fold: Fold, db: Db, faults: Faults, rows: seq<Reading>)
    requires NoInsertFailure(Run(fold, db, faults, rows).1)
    ensures GoodPhones(rows) <= Run(fold, db, faults, rows).0.users.Keys
  {
    if rows != [] {
      var front := rows[..|rows|-1];
      var so, r := Run(fold, db, faults, front), Run(fold, db, faults, rows);
      assert forall o :: o in so.1 ==> o in r.1;
      GoodAreKnown(fold, db, faults, front);
      ProcessKeys(fold, so.0, faults, |rows| + 1, rows[|rows|-1]);
      assert r.1[|r.1|-1] in r.1;
    }
  }

  /** When no insert fails, exactly the new phones are created, each once however many
      rows carry it. */
  lemma CreatedIsDistinctNew(fold: Fold, db: Db, faults: Faults, rows: seq<Reading>)
    requires NoInsertFailure(Run(fold, db, faults, rows).1)
    ensures Count(IsCreated, Run(fold, db, faults, rows).1) == |GoodPhones(rows) - db.users.Keys|
    ensures Run(fold, db, faults, rows).0.users.Keys == db.users.Keys + GoodPhones(rows)
  {
    CreatedAreAdded(fold, db, faults, rows);
    GoodAreKnown(fold, db, faults, rows);
    var r := Run(fold, db, faults, rows);
    AddedExactly(db.users.Keys, r.0.users.Keys, GoodPhones(rows), Count(IsCreated, r.1));
  }

  lemma AddedExactly(before: set<string>, now: set<string>, good: set<string>, n: nat)
    requires before <= now <= before + good && good <= now && |now| == |before| + n
    ensures now == before + good && n == |good - before|
  {
    assert now == before + (good - before);
  }

  // ----- What taken rows leave behind -----

  /** The row wrote its name: it created the user, or its rename worked. */
  predicate Named(r: Reading, o: Outcome, faults: Faults, n: nat, phone: string) {
    r.Good? && r.phone == phone && (o.Created? || (o.Updated? && n !in faults.rename))
  }

  /** The name in the last row with this phone that wrote it. */
  function LastName(rows: seq<Reading>, outcomes: seq<Outcome>, faults: Faults, phone: string): Option<string>
    requires |rows| == |outcomes|
  {
    if rows == [] then None
    else if Named(rows[|rows|-1], outcomes[|outcomes|-1], faults, |rows| + 1, phone) then Some(rows[|rows|-1].name)
    else LastName(rows[..|rows|-1], outcomes[..|outcomes|-1], faults, phone)
  }

  /** A user's name is that of the last row that wrote one for the phone, and otherwise
      stays; no email that was there changes. */
  lemma {:induction false} LastNameWins(fold: Fold, db: Db, faults: Faults, rows: seq<Reading>, phone: string)
    ensures var r := Run(fold, db, faults, rows); var last := LastName(rows, r.1, faults, phone);
            && (last.Some? ==> phone in r.0.users && r.0.users[phone].name == last.value)
            && (last.None? ==> (phone in r.0.users <==> phone in db.users))
            && (last.None? && phone in db.users ==> r.0.users[phone] == db.users[phone])
            && (phone in db.users ==> phone in r.0.users && r.0.users[phone].email == db.users[phone].email)
  {
    if rows != [] {
      var front := rows[..|rows|-1];
      LastNameWins(fold, db, faults, front, phone);
      var so, r := Run(fold, db, faults, front), Run(fold, db, faults, rows);
      assert r.1[..|r.1|-1] == so.1;
    }
  }

  /** Row k was taken and its membership query worked. */
  predicate Joined(rows: seq<Reading>, outcomes: seq<Outcome>, faults: Faults, k: nat, phone: string, role: string)
    requires k < |rows| == |outcomes|
  {
    rows[k].Good? && rows[k].phone == phone && rows[k].role == role && !outcomes[k].Skipped? && k + 2 !in faults.role
  }

  lemma ProcessRoles(fold: Fold, db: Db, faults: Faults, n: nat, r: Reading)
    ensures var next := Process(fold, db, faults, n, r);
            next.0.roles
            == db.roles + if r.Good? && !next.1.Skipped? && n !in faults.role then {(r.phone, r.role)} else {}
  {
  }

  /** The memberships are the earlier ones and exactly those of the rows that were taken and
      whose membership query worked. */
  lemma {:induction false} MembersExact(fold: Fold, db: Db, faults: Faults, rows: seq<Reading>,
                                        phone: string, role: string)
    ensures var r := Run(fold, db, faults, rows);
            (phone, role) in r.0.roles <==>
            (phone, role) in db.roles || exists k: nat :: k < |rows| && Joined(rows, r.1, faults, k, phone, role)
  {
    if rows != [] {
      var front, n := rows[..|rows|-1], |rows| - 1;
      MembersExact(fold, db, faults, front, phone, role);
      var so, r := Run(fold, db, faults, front), Run(fold, db, faults, rows);
      ProcessRoles(fold, so.0, faults, |rows| + 1, rows[n]);
      if k: nat :| k < |front| && Joined(front, so.1, faults, k, phone, role) {
        assert Joined(rows, r.1, faults, k, phone, role);
      }
      if k: nat :| k < |rows| && Joined(rows, r.1, faults, k, phone, role) {
        if k < n {
          assert Joined(front, so.1, faults, k, phone, role);
        }
      }
      assert Joined(rows, r.1, faults, n, phone, role) <==>
             && rows[n].Good? && (rows[n].phone, rows[n].role) == (phone, role)
             && !r.1[n].Skipped? && n + 2 !in faults.role;
    }
  }

  // ----- Importing the same file again -----

  /** The row cannot create anybody: it is not in order, its phone is known or its email is
      taken. */
  predicate Settled(fold: Fold, db: Db, r: Reading) {
    r.Good? ==> r.phone in db.users || EmailTaken(fold, db, r.email)
  }

  /** Nor can it where its insert fails. */
  predicate Barren(fold: Fold, db: Db, faults: Faults, rows: seq<Reading>) {
    forall k :: 0 <= k < |rows| ==> Settled(fold, db, rows[k]) || k + 2 in faults.insert
  }

  lemma SettledLater(fold: Fold, db: Db, faults: Faults, n: nat, r: Reading, q: Reading)
    requires Settled(fold, db, q)
    ensures Settled(fold, Process(fold, db, faults, n, r).0, q)
  {
  }

  /** After an import every row is settled but those whose insert failed of itself. */
  lemma {:induction false} RunSettles(fold: Fold, db: Db, faults: Faults, rows: seq<Reading>)
    ensures Barren(fold, Run(fold, db, faults, rows).0, faults, rows)
  {
    if rows != [] {
      var front := rows[..|rows|-1];
      RunSettles(fold, db, faults, front);
      var so := Run(fold, db, faults, front);
      forall k | 0 <= k < |rows|
        ensures Settled(fold, Run(fold, db, faults, rows).0, rows[k]) || k + 2 in faults.insert
      {
        if k < |front| && k + 2 !in faults.insert {
          assert Settled(fold, so.0, front[k]);
          SettledLater(fold, so.0, faults, |rows| + 1, rows[|rows|-1], rows[k]);
        }
      }
    }
  }

  /** What a row comes to when nobody can be created. */
  function Again(known: set<string>, faults: Faults, n: nat, r: Reading): Outcome {
    match r
    case Bad(phone, why) => Skipped(phone, why)
    case Good(phone, _, _, _) => if phone in known && n !in faults.lookup then Updated else Skipped(phone, InsertFailed)
  }

  lemma BarrenStep(fold: Fold, db: Db, faults: Faults, n: nat, r: Reading)
    requires Settled(fold, db, r) || n in faults.insert
    ensures var next := Process(fold, db, faults, n, r);
            && next.1 == Again(db.users.Keys, faults, n, r)
            && next.0.users.Keys == db.users.Keys && next.0.emails == db.emails
  {
  }

  lemma SameIndex(fold: Fold, db: Db, db': Db, r: Reading)
    requires db'.users.Keys == db.users.Keys && db'.emails == db.emails
    ensures Settled(fold, db', r) <==> Settled(fold, db, r)
  {
  }

  lemma BarrenSplit(fold: Fold, db: Db, faults: Faults, rows: seq<Reading>)
    requires rows != []
    ensures var front, last := rows[..|rows|-1], rows[|rows|-1];
            Barren(fold, db, faults, rows) <==>
            Barren(fold, db, faults, front) && (Settled(fold, db, last) || |rows| + 1 in faults.insert)
  {
    var front := rows[..|rows|-1];
    assert forall k :: 0 <= k < |front| ==> front[k] == rows[k];
  }

  predicate AllAgain(known: set<string>, faults: Faults, rows: seq<Reading>, outcomes: seq<Outcome>) {
    |outcomes| == |rows| && forall k :: 0 <= k < |rows| ==> outcomes[k] == Again(known, faults, k + 2, rows[k])
  }

  lemma AllAgainNext(known: set<string>, faults: Faults, rows: seq<Reading>, outcomes: seq<Outcome>)
    requires rows != [] && AllAgain(known, faults, rows[..|rows|-1], outcomes)
    ensures AllAgain(known, faults, rows, outcomes + [Again(known, faults, |rows| + 1, rows[|rows|-1])])
  {
  }

  ghost predicate Fruitless(fold: Fold, db: Db, faults: Faults, rows: seq<Reading>) {
    var again := Run(fold, db, faults, rows);
    && Count(IsCreated, again.1) == 0
    && again.0.users.Keys == db.users.Keys && again.0.emails == db.emails
    && AllAgain(db.users.Keys, faults, rows, again.1)
  }

  lemma FruitlessNext(fold: Fold, db: Db, faults: Faults, rows: seq<Reading>)
    requires rows != [] && Fruitless(fold, db, faults, rows[..|rows|-1])
    requires Settled(fold, db, rows[|rows|-1]) || |rows| + 1 in faults.insert
    ensures Fruitless(fold, db, faults, rows)
  {
    var last := rows[|rows|-1];
    var so := Run(fold, db, faults, rows[..|rows|-1]);
    SameIndex(fold, db, so.0, last);
    BarrenStep(fold, so.0, faults, |rows| + 1, last);
    ReportNext(so.1, Again(db.users.Keys, faults, |rows| + 1, last));
    AllAgainNext(db.users.Keys, faults, rows, so.1);
  }

  /** Over such rows nobody is created, and what each row comes to is settled too. */
  lemma {:induction false} BarrenRun(fold: Fold, db: Db, faults: Faults, rows: seq<Reading>)
    requires Barren(fold, db, faults, rows)
    ensures Fruitless(fold, db, faults, rows)
  {
    if rows != [] {
      BarrenSplit(fold, db, faults, rows);
      BarrenRun(fold, db, faults, rows[..|rows|-1]);
      FruitlessNext(fold, db, faults, rows);
    }
  }

  lemma FreshRowCreates(fold: Fold, db: Db, faults: Faults, rows: seq<Reading>)
    requires rows != [] && Fruitless(fold, db, faults, rows[..|rows|-1])
    requires !(Settled(fold, db, rows[|rows|-1]) || |rows| + 1 in faults.insert)
    ensures Count(IsCreated, Run(fold, db, faults, rows).1) > 0
  {
    var so := Run(fold, db, faults, rows[..|rows|-1]);
    SameIndex(fold, db, so.0, rows[|rows|-1]);
    ReportNext(so.1, Created);
  }

  /** An import creates nobody exactly when every row is settled beforehand or its insert
      fails. */
  lemma {:induction false} NobodyCreatedIff(fold: Fold, db: Db, faults: Faults, rows: seq<Reading>)
    ensures Count(IsCreated, Run(fold, db, faults, rows).1) == 0 <==> Barren(fold, db, faults, rows)
  {
    if Barren(fold, db, faults, rows) {
      BarrenRun(fold, db, faults, rows);
    } else {
      var front := rows[..|rows|-1];
      BarrenSplit(fold, db, faults, rows);
      NobodyCreatedIff(fold, db, faults, front);
      if Barren(fold, db, faults, front) {
        BarrenRun(fold, db, faults, front);
        FreshRowCreates(fold, db, faults, rows);
      } else {
        var so, next := Run(fold, db, faults, front), Run(fold, db, faults, rows).1;
        ReportNext(so.1, next[|next|-1]);
      }
    }
  }

  lemma {:induction false} SkippedFirst(fold: Fold, db: Db, faults: Faults, rows: seq<Reading>, k: nat)
    requires k < |rows|
    ensures var r := Run(fold, db, faults, rows);
            && (rows[k].Bad? ==> r.1[k] == Skipped(rows[k].phone, rows[k].why))
            && (rows[k].Good? && r.1[k].Skipped? ==> r.1[k] == Skipped(rows[k].phone, InsertFailed))
            && (rows[k].Good? && !r.1[k].Skipped? ==> rows[k].phone in r.0.users)
  {
    var front, last := rows[..|rows|-1], rows[|rows|-1];
    var so := Run(fold, db, faults, front);
    ProcessKeys(fold, so.0, faults, |rows| + 1, last);
    if k < |front| {
      SkippedFirst(fold, db, faults, front, k);
    }
  }

  /** Importing a file a second time, whatever queries fail in both imports. It creates
      nobody exactly when each row is settled by then or its insert fails, in particular if
      no insert failed of itself the first time. Then it skips no row that the first import
      took, unless its lookup fails, and a row that was skipped is skipped again with the
      same error unless another row brought its phone in and its lookup works. */
  lemma Reimport(fold: Fold, db: Db, rows: seq<Reading>, faults: Faults, faults': Faults)
    ensures var first := Run(fold, db, faults, rows);
            var second := Run(fold, first.0, faults', rows);
            && (Count(IsCreated, second.1) == 0 <==> Barren(fold, first.0, faults', rows))
            && (faults.insert == {} ==> Barren(fold, first.0, faults', rows))
            && (Barren(fold, first.0, faults', rows) ==>
                  forall k :: 0 <= k < |rows| ==>
                    && (second.1[k].Skipped? && k + 2 !in faults'.lookup ==> second.1[k] == first.1[k])
                    && (first.1[k].Skipped? ==>
                          (second.1[k] == first.1[k]
                           <==> rows[k].Bad? || rows[k].phone !in first.0.users || k + 2 in faults'.lookup)))
  {
    var first := Run(fold, db, faults, rows);
    var second := Run(fold, first.0, faults', rows);
    RunSettles(fold, db, faults, rows);
    NobodyCreatedIff(fold, first.0, faults', rows);
    if Barren(fold, first.0, faults', rows) {
      BarrenRun(fold, first.0, faults', rows);
      forall k | 0 <= k < |rows|
        ensures second.1[k].Skipped? && k + 2 !in faults'.lookup ==> second.1[k] == first.1[k]
        ensures first.1[k].Skipped? ==>
                  (second.1[k] == first.1[k]
                   <==> rows[k].Bad? || rows[k].phone !in first.0.users || k + 2 in faults'.lookup)
      {
        SkippedFirst(fold, db, faults, rows, k);
        assert second.1[k] == Again(first.0.users.Keys, faults', k + 2, rows[k]);
      }
    }
  }
}
