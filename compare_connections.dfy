/** The comparison script of compare-db-connections.ts (`main`): it reads the test
    harness's `.env` and the API server's `.env`, fills in defaults, and reports whether the
    two point at the same database, which fields differ, and the passwords only masked. */
module CompareConnections {
  import opened Wrappers
  import EnvFile

  /** The five connection settings the script compares. */
  datatype DbConfig = DbConfig(host: string, port: string, user: string, password: string, database: string)

  /** `env.KEY || fallback`: the parsed value when it is present and non-empty, otherwise the
      fallback, since both `undefined` and the empty string are falsy. */
  function Setting(env: map<string, string>, key: string, fallback: string): string {
    if key in env && env[key] != "" then env[key] else fallback
  }

  /** The object literals `testDbConfig` and `apiDbConfig`: each field from its `DB_` key,
      with the defaults `localhost`, `5432`, `postgres`, the empty password and
      `automation_practice`. Because those defaults are non-empty, host, port, user and
      database are never empty; the password is empty exactly when it is unset or empty. */
  function ConfigFrom(env: map<string, string>): (c: DbConfig)
    ensures c.host == Setting(env, "DB_HOST", "localhost")
    ensures c.port == Setting(env, "DB_PORT", "5432")
    ensures c.user == Setting(env, "DB_USER", "postgres")
    ensures c.password == Setting(env, "DB_PASSWORD", "")
    ensures c.database == Setting(env, "DB_NAME", "automation_practice")
    ensures c.host != "" && c.port != "" && c.user != "" && c.database != ""
    ensures c.password == "" <==> "DB_PASSWORD" !in env || env["DB_PASSWORD"] == ""
  {
    DbConfig(
      host := Setting(env, "DB_HOST", "localhost"),
      port := Setting(env, "DB_PORT", "5432"),
      user := Setting(env, "DB_USER", "postgres"),
      password := Setting(env, "DB_PASSWORD", ""),
      database := Setting(env, "DB_NAME", "automation_practice"))
  }

  /** `isSame`: host, port, user, database and password pairwise equal. These are all the
      settings, so the two configurations agree exactly when they are the same value. */
  function IsSame(test: DbConfig, api: DbConfig): (same: bool)
    ensures same <==> test == api
  {
    test.host == api.host && test.port == api.port && test.user == api.user
    && test.database == api.database && test.password == api.password
  }

  datatype Field = Host | Port | User | Database | Password

  /** Position of a field in the report. */
  function Rank(f: Field): nat {
    match f
    case Host => 0
    case Port => 1
    case User => 2
    case Database => 3
    case Password => 4
  }

  function ValueOf(c: DbConfig, f: Field): string {
    match f
    case Host => c.host
    case Port => c.port
    case User => c.user
    case Database => c.database
    case Password => c.password
  }

  /** One line of the "Differences:" list: a field with both values, or the password,
      which is reported without either value. */
  datatype Difference = Differs(field: Field, test: string, api: string) | PasswordDiffers

  function FieldOf(d: Difference): Field {
    match d
    case Differs(f, _, _) => f
    case PasswordDiffers => Password
  }

  /** One `if` of the "Differences:" block: the field's line when its two values differ,
      nothing otherwise. */
  function Check(test: DbConfig, api: DbConfig, f: Field): (part: seq<Difference>)
    ensures |part| <= 1 && (part != [] <==> ValueOf(test, f) != ValueOf(api, f))
    ensures forall d :: d in part ==> FieldOf(d) == f
    ensures forall d :: d in part && d.Differs? ==>
      d.field != Password && d.test == ValueOf(test, f) && d.api == ValueOf(api, f)
  {
    if ValueOf(test, f) == ValueOf(api, f) then []
    else if f == Password then [PasswordDiffers]
    else [Differs(f, ValueOf(test, f), ValueOf(api, f))]
  }

  predicate Lists(ds: seq<Difference>, f: Field) {
    exists d :: d in ds && FieldOf(d) == f
  }

  /** The fields of `ds` come in report order, each at most once. */
  predicate InReportOrder(ds: seq<Difference>) {
    forall i, j :: 0 <= i < j < |ds| ==> Rank(FieldOf(ds[i])) < Rank(FieldOf(ds[j]))
  }

  /** The "Differences:" block, its five `if`s in order. */
  function Differences(test: DbConfig, api: DbConfig): seq<Difference> {
    Check(test, api, Host) + Check(test, api, Port) + Check(test, api, User)
      + Check(test, api, Database) + Check(test, api, Password)
  }

  lemma InReportOrderAppend(a: seq<Difference>, b: seq<Difference>, bound: nat)
    requires InReportOrder(a) && InReportOrder(b)
    requires forall d :: d in a ==> Rank(FieldOf(d)) < bound
    requires forall d :: d in b ==> Rank(FieldOf(d)) >= bound
    ensures InReportOrder(a + b)
  {
    forall i, j | 0 <= i < j < |a + b|
      ensures Rank(FieldOf((a + b)[i])) < Rank(FieldOf((a + b)[j]))
    {
      if j < |a| {
        assert (a + b)[i] == a[i] && (a + b)[j] == a[j];
      } else if i < |a| {
        assert (a + b)[i] == a[i] && a[i] in a;
        assert (a + b)[j] == b[j - |a|] && b[j - |a|] in b;
      } else {
        assert (a + b)[i] == b[i - |a|] && (a + b)[j] == b[j - |a|];
      }
    }
  }

  /** The "Differences:" list reports exactly the fields whose values differ, each once, in
      the order host, port, user, database, password; every value shown is the true one, the
      password never appears with a value, and the list is empty exactly when `isSame`. */
  lemma DifferencesExact(test: DbConfig, api: DbConfig)
    ensures var ds := Differences(test, api);
      && (forall f: Field :: Lists(ds, f) <==> ValueOf(test, f) != ValueOf(api, f))
      && InReportOrder(ds)
      && (forall d :: d in ds && d.Differs? ==>
            d.field != Password && d.test == ValueOf(test, d.field) && d.api == ValueOf(api, d.field))
      && (ds == [] <==> IsSame(test, api))
  {
    var ds := Differences(test, api);
    forall f: Field ensures Lists(ds, f) <==> Check(test, api, f) != [] {
      if Check(test, api, f) != [] {
        assert Check(test, api, f)[0] in ds;
      }
    }
    var p1 := Check(test, api, Host);
    var p2 := p1 + Check(test, api, Port);
    var p3 := p2 + Check(test, api, User);
    var p4 := p3 + Check(test, api, Database);
    InReportOrderAppend(p1, Check(test, api, Port), 1);
    InReportOrderAppend(p2, Check(test, api, User), 2);
    InReportOrderAppend(p3, Check(test, api, Database), 3);
    InReportOrderAppend(p4, Check(test, api, Password), 4);
  }

  /** `s.length` of a JavaScript string: UTF-16 code units, two for each character outside
      the Basic Multilingual Plane. */
  function Utf16Length(s: string): (n: nat)
    ensures |s| <= n <= 2 * |s|
    ensures (forall i :: 0 <= i < |s| ==> (s[i] as int) < 0x1_0000) ==> n == |s|
  {
    if s == [] then 0 else (if (s[0] as int) < 0x1_0000 then 1 else 2) + Utf16Length(s[1..])
  }

  /** `'*'.repeat(password.length)`: only stars, as many as the password has code units, so
      the shown text reveals the password's length and nothing else. */
  function Mask(password: string): (m: string)
    ensures |m| == Utf16Length(password)
    ensures forall i :: 0 <= i < |m| ==> m[i] == '*'
  {
    seq(Utf16Length(password), _ => '*')
  }

  /** Two passwords of equal length show the same mask. */
  lemma MaskHidesContent(p: string, q: string)
    requires Utf16Length(p) == Utf16Length(q)
    ensures Mask(p) == Mask(q)
  {
  }

  /** A configuration as the script prints it: the password replaced by its mask. */
  datatype Shown = Shown(host: string, port: string, user: string, database: string, password: string)

  function Show(c: DbConfig): Shown {
    Shown(c.host, c.port, c.user, c.database, Mask(c.password))
  }

  /** What the script reports: both configurations as shown, the verdict, and (only when
      they differ) the list of differences. */
  datatype Report = Report(test: Shown, api: Shown, same: bool, differences: seq<Difference>)

  /** `main`, with the two files given as their text (`None` for a missing file). */
  method CompareConnections(testFile: Option<string>, apiFile: Option<string>) returns (report: Report)
    ensures var test := ConfigFrom(if testFile.Some? then EnvFile.ParseEnv(testFile.value) else map[]);
            var api := ConfigFrom(if apiFile.Some? then EnvFile.ParseEnv(apiFile.value) else map[]);
            && report.test == Show(test) && report.api == Show(api)
            && (report.same <==> test == api)
            && report.differences == (if report.same then [] else Differences(test, api))
    ensures !report.same <==> report.differences != []
  {
    var testEnv := EnvFile.ParseEnvFile(testFile);
    var apiEnv := EnvFile.ParseEnvFile(apiFile);
    var testDbConfig := ConfigFrom(testEnv);
    var apiDbConfig := ConfigFrom(apiEnv);
    var isSame := IsSame(testDbConfig, apiDbConfig);
    DifferencesExact(testDbConfig, apiDbConfig);
    var differences := if isSame then [] else Differences(testDbConfig, apiDbConfig);
    report := Report(Show(testDbConfig), Show(apiDbConfig), isSame, differences);
  }

  /** Two missing files (or two files without any `DB_` setting) describe the same,
      default database. */
  lemma MissingFilesAgree()
    ensures ConfigFrom(map[]) == DbConfig("localhost", "5432", "postgres", "", "automation_practice")
  {
  }
}
