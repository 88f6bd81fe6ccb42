/** The configuration read from the process environment when the server loads: five
    required settings, two optional ones, defaults for the mode and the port, and the
    list of front-end origins the CORS policy accepts. The environment is a map from
    variable names to their (string) values. */
module Env {
  import opened Base
  import opened JsValue

  type Vars = map<string, string>

  /** `process.env[name]`: the variable's string, or undefined when it is unset. */
  function Var(vars: Vars, name: string): (r: Value)
    ensures name in vars ==> r == Str(vars[name])
    ensures name !in vars ==> r == Undef
  {
    if name in vars then Str(vars[name]) else Undef
  }

  /** A variable that is set to a non-empty string. */
  predicate IsSet(vars: Vars, name: string) {
    name in vars && vars[name] != ""
  }

  /** required(name): the variable's value, or the error thrown for an unset or
      empty variable. */
  function Required(vars: Vars, name: string): (r: Result<string, string>)
    ensures r.Ok? <==> IsSet(vars, name)
    ensures r.Ok? ==> r.value == vars[name]
    ensures r.Err? ==> r.error == "Missing env var: " + name
  {
    if Truthy(Var(vars, name)) then Ok(vars[name]) else Err("Missing env var: " + name)
  }

  const DefaultOrigins := "http://localhost:3000"

  /** An origin entry as the list keeps it: non-empty, with no whitespace at either end. */
  predicate IsCleanEntry(e: string) {
    |e| > 0 && !IsJsSpace(e[0]) && !IsJsSpace(e[|e| - 1])
  }

  /** `.map((s) => s.trim()).filter(Boolean)`. */
  function Cleaned(pieces: seq<string>): seq<string> {
    if pieces == [] then []
    else
      var t := Trim(pieces[0]);
      if t == "" then Cleaned(pieces[1..]) else [t] + Cleaned(pieces[1..])
  }

  /** Every entry kept is non-empty and trimmed, and there are no more entries than
      pieces. */
  lemma {:induction false} CleanedEntries(pieces: seq<string>)
    ensures |Cleaned(pieces)| <= |pieces|
    ensures forall i :: 0 <= i < |Cleaned(pieces)| ==> IsCleanEntry(Cleaned(pieces)[i])
  {
    if pieces != [] {
      CleanedEntries(pieces[1..]);
      var t := Trim(pieces[0]);
      if t != "" {
        assert IsCleanEntry(t);
      }
    }
  }

  /** A clean entry is kept as it is, in front of the cleaned rest. */
  lemma {:induction false} CleanedCons(e: string, rest: seq<string>)
    requires IsCleanEntry(e)
    ensures Cleaned([e] + rest) == [e] + Cleaned(rest)
  {
    TrimNoSpace(e);
    assert ([e] + rest)[1..] == rest;
  }

  /** Entries that are already clean pass through unchanged and in order. */
  lemma {:induction false} CleanedOfClean(entries: seq<string>)
    requires forall i :: 0 <= i < |entries| ==> IsCleanEntry(entries[i])
    ensures Cleaned(entries) == entries
  {
    if entries != [] {
      CleanedOfClean(entries[1..]);
      assert entries == [entries[0]] + entries[1..];
      CleanedCons(entries[0], entries[1..]);
    }
  }

  /** FRONTEND_ORIGINS: the variable (or the local development origin when it is
      unset or empty), split at commas, each piece trimmed, empty pieces dropped. */
  function FrontendOrigins(raw: Value): (r: seq<string>)
    ensures forall i :: 0 <= i < |r| ==> IsCleanEntry(r[i])
  {
    CleanedEntries(Split(ToJsString(Or(raw, Str(DefaultOrigins))), ","));
    Cleaned(Split(ToJsString(Or(raw, Str(DefaultOrigins))), ","))
  }

  /** An unset or empty variable gives the single local development origin. */
  lemma {:induction false} DefaultFrontendOrigins(raw: Value)
    requires !Truthy(raw)
    ensures FrontendOrigins(raw) == [DefaultOrigins]
  {
    assert ToJsString(Or(raw, Str(DefaultOrigins))) == DefaultOrigins;
    DefaultOriginsCleaned();
  }

  /** The local development origin is one clean, comma-free entry. */
  lemma {:induction false} DefaultOriginsCleaned()
    ensures Cleaned(Split(DefaultOrigins, ",")) == [DefaultOrigins]
  {
    DefaultOriginsSplit();
    assert IsCleanEntry(DefaultOrigins);
    CleanedOfClean([DefaultOrigins]);
  }

  lemma {:induction false} DefaultOriginsSplit()
    ensures Split(DefaultOrigins, ",") == [DefaultOrigins]
  {
    assert Lacks(DefaultOrigins, ',');
    LacksSplit(DefaultOrigins, ',');
  }

  /** The origins of a truthy variable: its comma-separated pieces, cleaned. */
  lemma {:induction false} OriginsOfText(text: string)
    requires text != ""
    ensures FrontendOrigins(Str(text)) == Cleaned(Split(text, ","))
  {
    assert Or(Str(text), Str(DefaultOrigins)) == Str(text);
  }

  lemma {:induction false} JoinNotEmpty(parts: seq<string>, sep: string)
    requires |parts| >= 1 && parts[0] != ""
    ensures Join(parts, sep) != ""
  {
    if |parts| > 1 {
      assert Join(parts, sep) == parts[0] + sep + Join(parts[1..], sep);
    }
  }

  /** A non-empty list of clean origins without commas. */
  predicate OriginList(origins: seq<string>) {
    && |origins| >= 1
    && (forall i :: 0 <= i < |origins| ==> IsCleanEntry(origins[i]))
    && (forall i :: 0 <= i < |origins| ==> Lacks(origins[i], ','))
  }

  /** Clean origins without commas, written comma-separated, split and cleaned
      back into themselves. */
  lemma {:induction false} CleanedCommaList(origins: seq<string>)
    requires OriginList(origins)
    ensures Join(origins, ",") != "" && Cleaned(Split(Join(origins, ","), ",")) == origins
  {
    JoinNotEmpty(origins, ",");
    SplitJoin(origins, ',');
    CleanedOfClean(origins);
  }

  /** A list of clean origins without commas, written comma-separated, is read back
      as exactly that list. */
  lemma {:induction false} FrontendOriginsOfList(origins: seq<string>)
    requires OriginList(origins)
    ensures FrontendOrigins(Str(Join(origins, ","))) == origins
  {
    CleanedCommaList(origins);
    OriginsOfText(Join(origins, ","));
  }

  /** A text with one comma after a comma-free prefix splits into the prefix and "". */
  lemma {:induction false} TrailingCommaSplit(origin: string)
    requires Lacks(origin, ',')
    ensures Split(origin + ",", ",") == [origin, ""]
  {
    LacksIndex(origin, ',');
    SplitAt(origin, ",", "");
    assert origin + "," + "" == origin + ",";
  }

  /** Blank entries, such as those a trailing comma leaves, are dropped. */
  lemma {:induction false} TrailingCommaIgnored(origin: string)
    requires IsCleanEntry(origin) && Lacks(origin, ',')
    ensures FrontendOrigins(Str(origin + ",")) == [origin]
  {
    OriginsOfText(origin + ",");
    TrailingCommaSplit(origin);
    CleanedCons(origin, [""]);
  }

  /** NODE_ENV, "development" when unset or empty. */
  function NodeEnv(vars: Vars): (r: string)
    ensures IsSet(vars, "NODE_ENV") ==> r == vars["NODE_ENV"]
    ensures !IsSet(vars, "NODE_ENV") ==> r == "development"
  {
    ToJsString(Or(Var(vars, "NODE_ENV"), Str("development")))
  }

  /** PORT: the variable's string when set and non-empty, else the number 4000. */
  function Port(vars: Vars): (r: Value)
    ensures IsSet(vars, "PORT") ==> r == Str(vars["PORT"])
    ensures !IsSet(vars, "PORT") ==> r == Num(4000)
  {
    Or(Var(vars, "PORT"), Num(4000))
  }

  /** The required settings, in the order the configuration object reads them. */
  const RequiredNames: seq<string> := [
    "FRONTEND_PUBLIC_URL", "SUPABASE_URL", "SUPABASE_ANON_KEY", "SUPABASE_SERVICE_ROLE_KEY", "STRIPE_SECRET_KEY"
  ]

  /** The position of the first of `names` that is unset or empty. */
  function FirstMissing(vars: Vars, names: seq<string>): (r: Option<nat>)
    ensures r.None? <==> forall i :: 0 <= i < |names| ==> IsSet(vars, names[i])
    ensures r.Some? ==> r.value < |names| && !IsSet(vars, names[r.value])
                        && forall j :: 0 <= j < r.value ==> IsSet(vars, names[j])
  {
    if names == [] then None
    else if !IsSet(vars, names[0]) then Some(0)
    else match FirstMissing(vars, names[1..])
      case None => None
      case Some(k) => Some(k + 1)
  }

  /** The configuration object. The optional settings are None when unset. */
  datatype Config = Config(
    nodeEnv: string,
    port: Value,
    frontendOrigins: seq<string>,
    frontendPublicUrl: string,
    supabaseUrl: string,
    supabaseAnonKey: string,
    supabaseServiceRoleKey: string,
    stripePublicKey: Option<string>,
    stripeSecretKey: string,
    stripeWebhookSecret: Option<string>)

  /** `process.env[name]` of a variable that may be left unset. */
  function Optional(vars: Vars, name: string): (r: Option<string>)
    ensures r.Some? <==> name in vars
    ensures r.Some? ==> r.value == vars[name]
  {
    if name in vars then Some(vars[name]) else None
  }

  /** Loading the configuration: the error of the first missing required setting,
      in the order the object lists them, or the configuration. */
  function LoadEnv(vars: Vars): (r: Result<Config, string>)
    ensures r.Err? <==> exists i :: 0 <= i < |RequiredNames| && !IsSet(vars, RequiredNames[i])
    ensures r.Err? ==> r.error == "Missing env var: " + RequiredNames[FirstMissing(vars, RequiredNames).value]
    ensures r.Ok? ==> && Some(r.value.frontendPublicUrl) == Optional(vars, "FRONTEND_PUBLIC_URL")
                      && Some(r.value.supabaseUrl) == Optional(vars, "SUPABASE_URL")
                      && Some(r.value.supabaseAnonKey) == Optional(vars, "SUPABASE_ANON_KEY")
                      && Some(r.value.supabaseServiceRoleKey) == Optional(vars, "SUPABASE_SERVICE_ROLE_KEY")
                      && Some(r.value.stripeSecretKey) == Optional(vars, "STRIPE_SECRET_KEY")
    ensures r.Ok? ==> && r.value.frontendPublicUrl != "" && r.value.supabaseUrl != "" && r.value.supabaseAnonKey != ""
                      && r.value.supabaseServiceRoleKey != "" && r.value.stripeSecretKey != ""
    ensures r.Ok? ==> r.value.stripePublicKey == Optional(vars, "STRIPE_PUBLIC_KEY")
                      && r.value.stripeWebhookSecret == Optional(vars, "STRIPE_WEBHOOK_SECRET")
    ensures r.Ok? ==> r.value.nodeEnv == NodeEnv(vars) && r.value.port == Port(vars)
                      && r.value.frontendOrigins == FrontendOrigins(Var(vars, "FRONTEND_ORIGINS"))
  {
    match FirstMissing(vars, RequiredNames)
    case Some(k) => Err(Required(vars, RequiredNames[k]).error)
    case None =>
      assert IsSet(vars, RequiredNames[0]) && IsSet(vars, RequiredNames[1]) && IsSet(vars, RequiredNames[2])
          && IsSet(vars, RequiredNames[3]) && IsSet(vars, RequiredNames[4]);
      Ok(Config(
        NodeEnv(vars),
        Port(vars),
        FrontendOrigins(Var(vars, "FRONTEND_ORIGINS")),
        Required(vars, "FRONTEND_PUBLIC_URL").value,
        Required(vars, "SUPABASE_URL").value,
        Required(vars, "SUPABASE_ANON_KEY").value,
        Required(vars, "SUPABASE_SERVICE_ROLE_KEY").value,
        Optional(vars, "STRIPE_PUBLIC_KEY"),
        Required(vars, "STRIPE_SECRET_KEY").value,
        Optional(vars, "STRIPE_WEBHOOK_SECRET")))
  }

  /** With only the required settings given, the configuration takes its defaults:
      development mode, port 4000, the local development origin, and no optional
      Stripe keys. */
  lemma {:induction false} DefaultConfig(vars: Vars)
    requires forall i :: 0 <= i < |RequiredNames| ==> IsSet(vars, RequiredNames[i])
    requires "NODE_ENV" !in vars && "PORT" !in vars && "FRONTEND_ORIGINS" !in vars
    requires "STRIPE_PUBLIC_KEY" !in vars && "STRIPE_WEBHOOK_SECRET" !in vars
    ensures LoadEnv(vars).Ok?
    ensures var c := LoadEnv(vars).value;
      && c.nodeEnv == "development" && c.port == Num(4000) && c.frontendOrigins == [DefaultOrigins]
      && c.stripePublicKey.None? && c.stripeWebhookSecret.None?
  {
    assert LoadEnv(vars).Ok?;
    assert Var(vars, "FRONTEND_ORIGINS") == Undef;
    DefaultFrontendOrigins(Undef);
  }
}
