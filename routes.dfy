/** The two rules of server/routes.ts kept in this model: reshaping the translation rows
    into the sections the client reads (`GET /api/translations`) and the credential check of
    `POST /api/users/login`. */
module Routes {
  import opened Optional
  import opened Seqs
  import opened Strings
  import opened Schema
  import opened StoreModel
  import opened StoreProperties
  import opened Language

  /** `const [section, translationKey] = key.split('.')`: the first two pieces; a key
      without '.' leaves the sub-key undefined, which names the property "undefined". */
  function KeyParts(key: string): (r: (string, string))
    ensures '.' !in key ==> r == (key, "undefined")
  {
    var parts := Split(key, '.');
    (parts[0], if |parts| >= 2 then parts[1] else "undefined")
  }

  /** Keys of the form `section.sub` or `section.sub.more` split into `section` and `sub`. */
  lemma DottedKeyParts(section: string, sub: string, rest: string)
    requires '.' !in section && '.' !in sub
    requires rest == "" || rest[0] == '.'
    ensures KeyParts(section + "." + sub + rest) == (section, sub)
  {
    DottedParts(section, sub, rest);
  }

  /** The empty section `{ en: {}, pt: {} }`. */
  const EmptySection := Section(map[], map[])

  /** One step of the `reduce`: create the section on its first occurrence, then write the
      row's `en` and `pt` under the same sub-key. */
  function AddRow(acc: Table, row: TranslationRow): (r: Table)
    ensures var (section, sub) := KeyParts(row.key);
            var before := SectionNamed(acc, section).GetOr(EmptySection);
            && SectionNamed(r, section) == Some(Section(before.en[sub := row.en], before.pt[sub := row.pt]))
            && (forall name :: name != section ==> SectionNamed(r, name) == SectionNamed(acc, name))
            && Names(r) == if section in Names(acc) then Names(acc) else Names(acc) + [section]
  {
    var (section, sub) := KeyParts(row.key);
    var i := FindIndex(acc, (e: (string, Section)) => e.0 == section);
    var before := if i.Some? then acc[i.value].1 else EmptySection;
    var entry := (section, Section(before.en[sub := row.en], before.pt[sub := row.pt]));
    if i.Some? then
      AddRowAt(acc, i.value, entry);
      acc[i.value := entry]
    else
      AppendSection(acc, entry);
      acc + [entry]
  }

  /** Replacing the first section of a name changes what that name finds, and only that. */
  lemma {:induction false} AddRowAt(acc: Table, i: nat, entry: (string, Section))
    requires i < |acc| && acc[i].0 == entry.0
    requires forall j :: 0 <= j < i ==> acc[j].0 != entry.0
    ensures SectionNamed(acc, entry.0) == Some(acc[i].1)
    ensures SectionNamed(acc[i := entry], entry.0) == Some(entry.1)
    ensures forall name :: name != entry.0 ==> SectionNamed(acc[i := entry], name) == SectionNamed(acc, name)
  {
    if i > 0 {
      AddRowAt(acc[1..], i - 1, entry);
      assert acc[i := entry][1..] == acc[1..][i - 1 := entry];
    }
  }

  /** Appending a section of a new name makes that name find it, and nothing else changes. */
  lemma {:induction false} AppendSection(acc: Table, entry: (string, Section))
    requires SectionNamed(acc, entry.0).None?
    ensures SectionNamed(acc + [entry], entry.0) == Some(entry.1)
    ensures forall name :: name != entry.0 ==> SectionNamed(acc + [entry], name) == SectionNamed(acc, name)
  {
    if acc != [] {
      AppendSection(acc[1..], entry);
      assert (acc + [entry])[1..] == acc[1..] + [entry];
    }
  }

  /** The object the `reduce` builds from the rows, in order. */
  function Reshape(rows: seq<TranslationRow>): Table
  {
    if rows == [] then [] else AddRow(Reshape(rows[..|rows| - 1]), rows[|rows| - 1])
  }

  /** The answer of `GET /api/translations`: the default table when there are no rows,
      otherwise the rows reshaped one after the other, as the `reduce` does on one
      accumulator. */
  method FormatTranslations(rows: seq<TranslationRow>, defaults: Table) returns (r: Table)
    ensures rows == [] ==> r == defaults
    ensures rows != [] ==> r == Reshape(rows)
  {
    if |rows| == 0 {
      return defaults;
    }
    var acc: Table := [];
    var i := 0;
    while i < |rows|
      invariant 0 <= i <= |rows|
      invariant acc == Reshape(rows[..i])
    {
      assert rows[..i + 1][..i] == rows[..i];
      acc := AddRow(acc, rows[i]);
      i := i + 1;
    }
    assert rows[..|rows|] == rows;
    r := acc;
  }

  /** The row writes the entry `sub` of section `section`. */
  predicate Writes(row: TranslationRow, section: string, sub: string) {
    KeyParts(row.key) == (section, sub)
  }

  /** The position of the last row that writes a section and sub-key. */
  function LastWriter(rows: seq<TranslationRow>, section: string, sub: string): (r: Option<nat>)
    ensures r.None? <==> forall i :: 0 <= i < |rows| ==> !Writes(rows[i], section, sub)
    ensures r.Some? ==> r.value < |rows| && Writes(rows[r.value], section, sub)
    ensures r.Some? ==> forall j :: r.value < j < |rows| ==> !Writes(rows[j], section, sub)
  {
    if rows == [] then None
    else if Writes(rows[|rows| - 1], section, sub) then Some(|rows| - 1)
    else
      var prefix := rows[..|rows| - 1];
      assert forall i :: 0 <= i < |prefix| ==> prefix[i] == rows[i];
      LastWriter(prefix, section, sub)
  }

  /** Every section of the reshaped table has the same sub-keys in `en` and `pt`. */
  lemma {:induction false} ReshapeSameKeys(rows: seq<TranslationRow>, section: string)
    ensures SectionNamed(Reshape(rows), section).Some? ==>
              SectionNamed(Reshape(rows), section).value.en.Keys == SectionNamed(Reshape(rows), section).value.pt.Keys
  {
    if rows != [] {
      ReshapeSameKeys(rows[..|rows| - 1], section);
    }
  }

  /** No name occurs twice. */
  ghost predicate Distinct(names: seq<string>) {
    forall i, j :: 0 <= i < j < |names| ==> names[i] != names[j]
  }

  /** A section name appears at most once in the reshaped table. */
  lemma {:induction false} ReshapeNamesDistinct(rows: seq<TranslationRow>)
    ensures Distinct(Names(Reshape(rows)))
  {
    if rows != [] {
      var prefix := rows[..|rows| - 1];
      ReshapeNamesDistinct(prefix);
      var names := Names(Reshape(prefix));
      var section := KeyParts(rows[|rows| - 1].key).0;
      if section !in names {
        assert Names(Reshape(rows)) == names + [section];
      }
    }
  }

  /** The reshaped entry for `section.sub` holds the `en` and `pt` of the LAST row that
      writes it, and a pair no row writes has no entry. */
  lemma {:induction false} ReshapeLastRowWins(rows: seq<TranslationRow>, section: string, sub: string)
    ensures var found := SectionNamed(Reshape(rows), section);
            match LastWriter(rows, section, sub)
            case None => found.None? || sub !in found.value.en
            case Some(k) =>
              && found.Some?
              && sub in found.value.en && found.value.en[sub] == rows[k].en
              && sub in found.value.pt && found.value.pt[sub] == rows[k].pt
  {
    if rows != [] {
      var prefix := rows[..|rows| - 1];
      ReshapeLastRowWins(prefix, section, sub);
      assert forall i :: 0 <= i < |prefix| ==> prefix[i] == rows[i];
    }
  }

  /** The section each row names, in order. */
  function SectionsOf(rows: seq<TranslationRow>): (r: seq<string>)
    ensures |r| == |rows|
  {
    if rows == [] then [] else SectionsOf(rows[..|rows| - 1]) + [KeyParts(rows[|rows| - 1].key).0]
  }

  /** `SectionsOf` lists, at each position, the section of that row. */
  lemma {:induction false} SectionsOfRows(rows: seq<TranslationRow>)
    ensures forall i :: 0 <= i < |rows| ==> SectionsOf(rows)[i] == KeyParts(rows[i].key).0
  {
    if rows != [] {
      var prefix := rows[..|rows| - 1];
      SectionsOfRows(prefix);
      assert forall i :: 0 <= i < |prefix| ==> prefix[i] == rows[i];
    }
  }

  /** The sections of the reshaped table are the sections the rows name. */
  lemma {:induction false} ReshapeSections(rows: seq<TranslationRow>, section: string)
    ensures section in Names(Reshape(rows)) <==> section in SectionsOf(rows)
  {
    if rows != [] {
      var prefix := rows[..|rows| - 1];
      ReshapeSections(prefix, section);
      var last := KeyParts(rows[|rows| - 1].key).0;
      var names := Names(Reshape(prefix));
      ReshapeNamesStep(rows);
      MembershipStep(Names(Reshape(rows)), names, SectionsOf(rows), SectionsOf(prefix), last, section);
    }
  }

  lemma MembershipStep(n1: seq<string>, n0: seq<string>, s1: seq<string>, s0: seq<string>, last: string, x: string)
    requires n1 == (if last in n0 then n0 else n0 + [last]) && s1 == s0 + [last]
    requires x in n0 <==> x in s0
    ensures x in n1 <==> x in s1
  {
  }

  /** The last row adds its section to the names, unless the section is already there. */
  lemma ReshapeNamesStep(rows: seq<TranslationRow>)
    requires rows != []
    ensures var names := Names(Reshape(rows[..|rows| - 1]));
            var last := KeyParts(rows[|rows| - 1].key).0;
            Names(Reshape(rows)) == if last in names then names else names + [last]
  {
  }

  /** What the client shows for `section.sub` after loading the reshaped rows: the text of
      the last row that writes the pair in the current language, or the key when that text is
      empty or no row writes the pair. */
  lemma ReshapedLookup(rows: seq<TranslationRow>, language: string, section: string, sub: string)
    requires '.' !in section && '.' !in sub && language in LANGUAGES
    ensures var key := section + "." + sub;
            Translate(Reshape(rows), language, key) ==
              match LastWriter(rows, section, sub)
              case None => key
              case Some(k) =>
                var row := rows[k];
                var text := if language == "en" then row.en else row.pt;
                if text != "" then text else key
  {
    DottedKey(Reshape(rows), language, section, sub, "");
    assert section + "." + sub + "" == section + "." + sub;
    ReshapeLastRowWins(rows, section, sub);
    ReshapeSameKeys(rows, section);
  }

  // ---------------------------------------------------------------------------------------
  // Login

  /** The reply of the login route: 401 or the user. */
  datatype LoginReply = Unauthorized | LoggedIn(user: User)

  /** The oldest user with this username: the one the lookup returns. */
  ghost predicate OldestNamed(s: Store, username: string, k: int) {
    && k in s.users && s.users[k].username == username
    && forall j :: j in s.users && j < k ==> s.users[j].username != username
  }

  /** `POST /api/users/login`: 401 exactly when no user has the username or the oldest user
      with it has another password; otherwise that user. */
  function Login(s: Store, username: string, password: string): (r: LoginReply)
    requires Valid(s)
    ensures r.LoggedIn? ==> r.user.id in s.users && s.users[r.user.id] == r.user
                            && OldestNamed(s, username, r.user.id) && r.user.password == password
    ensures r.Unauthorized? <==>
              (forall k :: k in s.users ==> s.users[k].username != username)
              || (exists k :: OldestNamed(s, username, k) && s.users[k].password != password)
  {
    var user := GetUserByUsername(s, username);
    UsernameLookupFindsOldest(s, username);
    if user.None? then Unauthorized
    else
      OldestUnique(s, username, user.value.id);
      if user.value.password != password then Unauthorized else LoggedIn(user.value)
  }

  /** Only one user is the oldest with a username. */
  lemma OldestUnique(s: Store, username: string, k: int)
    requires OldestNamed(s, username, k)
    ensures forall j :: OldestNamed(s, username, j) ==> j == k
  {
  }
}
