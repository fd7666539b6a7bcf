/** The default administrator that migrate-database.js and `ensureDefaultAdmin`
    (src/config/db-postgres.js) create when no user has its e-mail address: the
    look-up and the insert, with their parameters. The password is hashed
    outside the model and enters as an opaque text. */
module AdminSeed {
  import opened Text
  import opened JsValues
  import opened DbAdapter

  const AdminEmail := "admin@emilash.local"

  const LookupHead := "SELECT id FROM users " + "WHERE email = "
  /** `SELECT id FROM users WHERE email = ?` */
  const Lookup := Fill([LookupHead, ""])

  const InsertHead := "INSERT INTO users " + "(name, email, " + "password_hash, role) " + "VALUES ("
  /** `INSERT INTO users (name, email, password_hash, role) VALUES (?, ?, ?, ?)` */
  const Insert := Fill([InsertHead, ", ", ", ", ", ", ")"])

  function LookupParams(): seq<Value>
  {
    [Str(AdminEmail)]
  }

  /** Name, e-mail, password hash and role, in the insert's column order. */
  function InsertParams(passwordHash: string): seq<Value>
  {
    [Str("Administrator"), Str(AdminEmail), Str(passwordHash), Str("admin")]
  }

  /** The look-up has one placeholder for its one parameter, and on PostgreSQL
      it is numbered `$1`. */
  lemma LookupBindsItsParameter()
    ensures Placeholders(Lookup) == |LookupParams()|
    ensures Unnumber(Numbered(Lookup, 1)) == (Lookup, Range(1, |LookupParams()|))
  {
    assert '?' !in LookupHead && '$' !in LookupHead;
    FillPlaceholders([LookupHead, ""]);
    UnnumberNumbered(Lookup, 1);
  }

  /** The insert has four placeholders for its four parameters, numbered `$1`
      to `$4` in order on PostgreSQL. */
  lemma InsertBindsItsParameters(passwordHash: string)
    ensures Placeholders(Insert) == |InsertParams(passwordHash)|
    ensures Unnumber(Numbered(Insert, 1)) == (Insert, Range(1, |InsertParams(passwordHash)|))
  {
    InsertHeadPlain();
    FillPlaceholders([InsertHead, ", ", ", ", ", ", ")"]);
    UnnumberNumbered(Insert, 1);
  }

  lemma InsertHeadPlain()
    ensures '?' !in InsertHead && '$' !in InsertHead
  {
    assert Plain("INSERT INTO users ") && Plain("(name, email, ");
    assert Plain("password_hash, role) ") && Plain("VALUES (");
  }
}
