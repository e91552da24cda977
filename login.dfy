/** The login form: SQL Server credentials (server, database, user name and
    password, all required) or Windows credentials (a user name), the reset
    of the values when the mode changes, the icon beside each field, and
    when the submit button is enabled. */
module Login {
  import opened Wrappers

  datatype AuthType = Sql | Windows

  datatype LoginField = Server | Database | Username | Password

  /** The form's values; a field the current mode does not have is absent. */
  datatype LoginValues = LoginValues(
    server: Option<string>,
    database: Option<string>,
    username: Option<string>,
    password: Option<string>)

  function FieldValue(v: LoginValues, f: LoginField): Option<string> {
    match f
    case Server => v.server
    case Database => v.database
    case Username => v.username
    case Password => v.password
  }

  /** `z.string().min(1)` accepts a present, non-empty string. */
  predicate Filled(value: Option<string>) {
    value.Some? && |value.value| >= 1
  }

  // ---------------------------------------------------------------------------
  // `sqlAuthSchema`, `windowsAuthSchema` and the choice between them

  /** The fields `sqlAuthSchema` rejects, in declaration order. */
  function SqlInvalidFields(v: LoginValues): (r: seq<LoginField>)
    ensures forall f :: f in r <==> !Filled(FieldValue(v, f))
    ensures r == [] <==> Filled(v.server) && Filled(v.database) && Filled(v.username) && Filled(v.password)
  {
    (if Filled(v.server) then [] else [Server])
    + (if Filled(v.database) then [] else [Database])
    + (if Filled(v.username) then [] else [Username])
    + (if Filled(v.password) then [] else [Password])
  }

  /** The fields `windowsAuthSchema` rejects: only the user name is checked. */
  function WindowsInvalidFields(v: LoginValues): (r: seq<LoginField>)
    ensures forall f :: f in r <==> f == Username && !Filled(v.username)
    ensures r == [] <==> Filled(v.username)
  {
    if Filled(v.username) then [] else [Username]
  }

  /** `currentSchema`: the SQL schema in SQL mode, the Windows one otherwise. */
  function InvalidFields(authType: AuthType, v: LoginValues): (r: seq<LoginField>)
    ensures forall f :: f in r <==> (authType == Sql || f == Username) && !Filled(FieldValue(v, f))
  {
    if authType == Sql then SqlInvalidFields(v) else WindowsInvalidFields(v)
  }

  /** Windows mode never looks at server, database or password, and whatever
      SQL mode accepts, Windows mode accepts too. */
  lemma SchemaSelection(v: LoginValues, server: Option<string>, database: Option<string>, password: Option<string>)
    ensures InvalidFields(Windows, v.(server := server, database := database, password := password)) == InvalidFields(Windows, v)
    ensures InvalidFields(Sql, v) == [] ==> InvalidFields(Windows, v) == []
    ensures InvalidFields(Windows, v) == [] <==> Filled(v.username)
    ensures InvalidFields(Sql, v) == [] <==>
      Filled(v.server) && Filled(v.database) && Filled(v.username) && Filled(v.password)
  {
  }

  /** The message shown under a rejected field. An absent field gets the
      schema library's generic message. */
  function Message(authType: AuthType, f: LoginField, value: Option<string>): string {
    if value.None? then "Required"
    else match f
      case Server => "Server is required"
      case Database => "Database is required"
      case Username => if authType == Sql then "Username is required" else "Username is required (domain\\user)"
      case Password => "Password is required"
  }

  // ---------------------------------------------------------------------------
  // Defaults, the field icon and the submit button

  /** The empty values of each mode: four empty fields for SQL, only the
      user name for Windows. */
  function Defaults(authType: AuthType): (v: LoginValues)
    ensures v.username == Some("")
    ensures authType == Sql <==> v.server.Some?
    ensures authType == Sql ==> v.server == Some("") && v.database == Some("") && v.password == Some("")
    ensures authType == Windows ==> v.server == None && v.database == None && v.password == None
  {
    if authType == Sql then LoginValues(Some(""), Some(""), Some(""), Some(""))
    else LoginValues(None, None, Some(""), None)
  }

  /** Freshly reset values never pass: the user name is always required. */
  lemma DefaultsRejected(authType: AuthType)
    ensures Username in InvalidFields(authType, Defaults(authType))
  {
  }

  datatype FieldIcon = NoIcon | Warning | Check

  /** `getFieldStateIcon`: nothing for a field whose value still equals its
      default (not dirty), a warning for a dirty field with an error, a check
      for a dirty field without error that holds a non-empty value, nothing
      otherwise. */
  function FieldStateIcon(isDirty: bool, hasError: bool, value: Option<string>): (icon: FieldIcon)
    ensures icon == Warning <==> isDirty && hasError
    ensures icon == Check <==> isDirty && !hasError && Filled(value)
    ensures !isDirty ==> icon == NoIcon
  {
    if !isDirty then NoIcon
    else if hasError then Warning
    else if value.Some? && value.value != "" then Check
    else NoIcon
  }

  /** With validation on every change, the icon of a dirty field that the
      current schema checks is decided by its value alone: a check when it is
      filled, a warning when it is not. `DirtyFieldIcon` shows that the
      second case never arises with this form's defaults. */
  lemma CheckedFieldIcon(authType: AuthType, v: LoginValues, f: LoginField)
    requires authType == Sql || f == Username
    ensures FieldStateIcon(true, f in InvalidFields(authType, v), FieldValue(v, f)) ==
      (if Filled(FieldValue(v, f)) then Check else Warning)
  {
  }

  /** `isDirty` compares a field with its default, and every default is the
      empty string. So a dirty field the form holds is filled and passes its
      rule: the icon is a check exactly when the field is dirty, and the
      warning is never shown. */
  lemma DirtyFieldIcon(authType: AuthType, v: LoginValues, f: LoginField)
    requires authType == Sql || f == Username
    requires FieldValue(v, f).Some?
    ensures var isDirty := FieldValue(v, f) != FieldValue(Defaults(authType), f);
      FieldStateIcon(isDirty, f in InvalidFields(authType, v), FieldValue(v, f)) ==
        (if isDirty then Check else NoIcon)
  {
    CheckedFieldIcon(authType, v, f);
  }

  /** The submit button's `disabled`: the form is invalid or a submission is
      in progress. */
  function SubmitDisabled(authType: AuthType, v: LoginValues, isSubmitting: bool): (disabled: bool)
    ensures disabled <==>
      (isSubmitting || !Filled(v.username)
       || (authType == Sql && !(Filled(v.server) && Filled(v.database) && Filled(v.password))))
  {
    var isValid := InvalidFields(authType, v) == [];
    !isValid || isSubmitting
  }

  // ---------------------------------------------------------------------------
  // The form's state

  class LoginForm {
    var authType: AuthType
    var values: LoginValues
    var showPassword: bool

    /** The values hold exactly the fields the current mode shows. */
    ghost predicate Valid()
      reads this
    {
      values.username.Some?
      && (authType == Sql <==> values.server.Some?)
      && (authType == Sql <==> values.database.Some?)
      && (authType == Sql <==> values.password.Some?)
    }

    constructor ()
      ensures Valid() && authType == Sql && values == Defaults(Sql) && !showPassword
    {
      authType := Sql;
      values := Defaults(Sql);
      showPassword := false;
    }

    /** Choosing a tab; the reset only runs when the mode actually changes. */
    method SetAuthType(t: AuthType)
      requires Valid()
      modifies this
      ensures Valid() && authType == t
      ensures t != old(authType) ==> values == Defaults(t)
      ensures t == old(authType) ==> values == old(values)
      ensures showPassword == old(showPassword)
    {
      if t != authType {
        authType := t;
        values := Defaults(t);
      }
    }

    /** Typing into a field; only the fields the current mode shows can be
        typed into. */
    method EditField(f: LoginField, text: string)
      requires Valid() && (authType == Sql || f == Username)
      modifies this
      ensures Valid() && authType == old(authType) && showPassword == old(showPassword)
      ensures FieldValue(values, f) == Some(text)
      ensures forall g :: g != f ==> FieldValue(values, g) == FieldValue(old(values), g)
    {
      match f
      case Server => values := values.(server := Some(text));
      case Database => values := values.(database := Some(text));
      case Username => values := values.(username := Some(text));
      case Password => values := values.(password := Some(text));
    }

    /** The eye button beside the password. */
    method TogglePasswordVisibility()
      modifies this
      ensures showPassword == !old(showPassword)
      ensures authType == old(authType) && values == old(values)
    {
      showPassword := !showPassword;
    }
  }
}
