/** Submitted form fields and the input checks the request handlers apply to them.

    A field is read with `form.get(key)`, which yields nothing when the key was not
    submitted; each handler then rejects a field that is missing or empty (Python's
    `not field`) or longer than the column allows. Lengths count characters: Python's
    `len` on a `str` counts code points, which for decoded form text are Unicode scalar
    values, the values of Dafny's `char`.
 */
module Forms {

  datatype Option<+T> = None | Some(value: T)

  /** The submitted form: field name to submitted text. */
  type Form = map<string, string>

  /** Longest title and year a movie row accepts, and longest user name settings accepts. */
  const MaxTitleLength: nat := 60
  const MaxYearLength: nat := 4
  const MaxNameLength: nat := 60

  /** The value of one field, or None when it was not submitted. */
  function Field(form: Form, key: string): Option<string>
  {
    if key in form then Some(form[key]) else None
  }

  /** Python's `not field` on the result of `form.get`: missing or empty. */
  predicate Falsy(f: Option<string>)
  {
    f.None? || f.value == ""
  }

  /** A field that was submitted, is non-empty and has at most `max` characters. */
  predicate Filled(f: Option<string>, max: nat)
  {
    f.Some? && 0 < |f.value| <= max
  }

  /** The input a movie row accepts: a non-empty title of at most 60 characters and a
      non-empty year of at most 4 characters. */
  predicate ValidMovieInput(title: Option<string>, year: Option<string>)
  {
    Filled(title, MaxTitleLength) && Filled(year, MaxYearLength)
  }

  /** The input the settings page accepts as a new user name. */
  predicate ValidName(name: Option<string>)
  {
    Filled(name, MaxNameLength)
  }

  /** The rejection test of the create path, in the order the source writes it. */
  predicate CreateGuard(title: Option<string>, year: Option<string>)
  {
    Falsy(title) || Falsy(year) || |year.value| > MaxYearLength || |title.value| > MaxTitleLength
  }

  /** The rejection test of the edit path, in the order the source writes it. */
  predicate EditGuard(title: Option<string>, year: Option<string>)
  {
    Falsy(title) || Falsy(year) || |title.value| > MaxTitleLength || |year.value| > MaxYearLength
  }

  /** The rejection test of the settings path. */
  predicate SettingsGuard(name: Option<string>)
  {
    Falsy(name) || |name.value| > MaxNameLength
  }

  /** Both guards of the movie handlers reject exactly the input that is not valid. */
  lemma MovieGuardsReject(title: Option<string>, year: Option<string>)
    ensures CreateGuard(title, year) <==> !ValidMovieInput(title, year)
    ensures EditGuard(title, year) <==> !ValidMovieInput(title, year)
  {
  }

  /** The settings guard rejects exactly the names that are not valid. */
  lemma SettingsGuardRejects(name: Option<string>)
    ensures SettingsGuard(name) <==> !ValidName(name)
  {
  }
}
