/**
 * What three generators add to the trait: the parent class a controller
 * extends, the defaults of the deprecated session migration generator, and the
 * view name a cell generator derives from the cell's class name.
 */
module Generators {
  import opened Wrappers
  import opened Php
  import opened ClassNames
  import opened Imports
  import opened GeneratorTrait

  // ---------------------------------------------------------------- controller

  const FrameworkController := "CodeIgniter" + "\\" + "Controller"
  const ResourceControllerClass := "CodeIgniter\\RESTful" + "\\" + "ResourceController"
  const ResourcePresenterClass := "CodeIgniter\\RESTful" + "\\" + "ResourcePresenter"

  /** The `use` statement of the application's base controller. */
  function AppBaseController(appNamespace: string): string
  {
    Trim(appNamespace, {'\\'}) + "\\Controllers" + "\\" + "BaseController"
  }

  /** The answer to the parent-class prompt, which accepts these two only. */
  datatype RestChoice = ControllerChoice | PresenterChoice

  /** The `use` statement, the class extended and the `type` handed to the template. */
  datatype Parent = Parent(useStatement: string, parentClass: string, restType: Value)

  /** The kind of resource a truthy `--restful` asks for: its string value when
      that names one of the two kinds, `controller` for a bare flag, otherwise
      the prompt's answer. */
  function RestKind(rest: Value, answer: RestChoice): (kind: string)
    ensures kind == "controller" || kind == "presenter"
    ensures rest == Str("controller") || rest == Str("presenter") ==> kind == rest.s
    ensures !rest.Str? ==> kind == "controller"
  {
    var named := if rest.Str? then rest.s else "controller";
    if named == "controller" || named == "presenter" then named
    else if answer == ControllerChoice then "controller"
    else "presenter"
  }

  lemma EndsWithName(ns: string, name: string)
    ensures EndsWith(ns + "\\" + name, "\\" + name)
  {
    var s := ns + "\\" + name;
    assert s[|s| - |name| - 1..] == "\\" + name;
  }

  /** The parent-class choice of the controller generator's `prepare`. */
  function ControllerParent(bare: Value, rest: Value, appNamespace: string, answer: RestChoice): (p: Parent)
    ensures Truthy(bare) ==> p == Parent(FrameworkController, "Controller", rest)
    ensures !Truthy(bare) && Truthy(rest) ==>
              && p.restType == Str(RestKind(rest, answer))
              && (p.parentClass == "ResourceController" <==> RestKind(rest, answer) == "controller")
              && (p.parentClass == "ResourcePresenter" <==> RestKind(rest, answer) == "presenter")
              && (p.useStatement == ResourceControllerClass <==> RestKind(rest, answer) == "controller")
              && (p.useStatement == ResourcePresenterClass <==> RestKind(rest, answer) == "presenter")
    ensures !Truthy(bare) && !Truthy(rest) ==>
              p == Parent(AppBaseController(appNamespace), "BaseController", rest)
  {
    if Truthy(bare) then
      Parent(FrameworkController, "Controller", rest)
    else if Truthy(rest) then
      var kind := RestKind(rest, answer);
      if kind == "controller" then
        Parent(ResourceControllerClass, "ResourceController", Str(kind))
      else
        Parent(ResourcePresenterClass, "ResourcePresenter", Str(kind))
    else
      Parent(AppBaseController(appNamespace), "BaseController", rest)
  }

  /** The `use` statement always imports the class the controller extends. */
  lemma UseStatementNamesParent(bare: Value, rest: Value, appNamespace: string, answer: RestChoice)
    ensures var p := ControllerParent(bare, rest, appNamespace, answer);
            EndsWith(p.useStatement, "\\" + p.parentClass)
  {
    if Truthy(bare) {
      EndsWithName("CodeIgniter", "Controller");
    } else if Truthy(rest) {
      EndsWithName("CodeIgniter\\RESTful", "ResourceController");
      EndsWithName("CodeIgniter\\RESTful", "ResourcePresenter");
    } else {
      EndsWithName(Trim(appNamespace, {'\\'}) + "\\Controllers", "BaseController");
    }
  }

  /** The controller generator's `prepare`: the parent's placeholders are the
      caller's pairs of `parseTemplate`, so they are filled in before the trait's
      own; `render` is the template engine. */
  function ControllerPrepare(cls: string, bare: Value, rest: Value, appNamespace: string,
                             answer: RestChoice, render: Value -> string): (r: string)
    ensures var p := ControllerParent(bare, rest, appNamespace, answer);
            var filled := StrReplace(StrReplace(render(p.restType), "{useStatement}", p.useStatement),
                                     "{extends}", p.parentClass);
            r == ParseTemplate(cls, [], [], filled)
  {
    var p := ControllerParent(bare, rest, appNamespace, answer);
    ParseTemplateCallerPairs(cls, "{useStatement}", p.useStatement, "{extends}", p.parentClass, render(p.restType));
    ParseTemplate(cls, ["{useStatement}", "{extends}"], [p.useStatement, p.parentClass], render(p.restType))
  }

  // --------------------------------------------------------- session migration

  /** The table the session migration generator's `run` puts into the class name:
      `ci_sessions` unless `t` is among the parameters or set on the command line. */
  function SessionRunTable(params: map<Key, Value>, cliOption: string -> Value): (table: Value)
    ensures Name("t") !in params && !Truthy(cliOption("t")) ==> table == Str("ci_sessions")
    ensures Name("t") in params && !params[Name("t")].Null? ==> table == params[Name("t")]
    ensures (Name("t") !in params || params[Name("t")].Null?) && (Name("t") in params || Truthy(cliOption("t"))) ==>
              table == cliOption("t")
  {
    if Name("t") in params || Truthy(cliOption("t")) then
      if Name("t") in params && !params[Name("t")].Null? then params[Name("t")] else cliOption("t")
    else Str("ci_sessions")
  }

  /** `$params[0]` as `run` sets it before generating the class. */
  function SessionRunParams(params: map<Key, Value>, cliOption: string -> Value): (p: map<Key, Value>)
    ensures p.Keys == params.Keys + {Index(0)}
    ensures p[Index(0)] == Str("_create_" + AsString(SessionRunTable(params, cliOption)) + "_table")
    ensures forall k :: k in params && k != Index(0) ==> p[k] == params[k]
  {
    params[Index(0) := Str("_create_" + AsString(SessionRunTable(params, cliOption)) + "_table")]
  }

  /** The table and database group the migration template is rendered with. */
  datatype SessionData = SessionData(table: string, group: string, matchIP: bool)

  /** The session migration generator's `prepare` data: string options are used
      as given, anything else falls back to `ci_sessions` and `default`. */
  function SessionTemplateData(params: map<Key, Value>, cliOption: string -> Value, matchIP: bool): (d: SessionData)
    ensures GetOption(params, "t", cliOption).Str? ==> d.table == GetOption(params, "t", cliOption).s
    ensures !GetOption(params, "t", cliOption).Str? ==> d.table == "ci_sessions"
    ensures GetOption(params, "g", cliOption).Str? ==> d.group == GetOption(params, "g", cliOption).s
    ensures !GetOption(params, "g", cliOption).Str? ==> d.group == "default"
  {
    var t := GetOption(params, "t", cliOption);
    var g := GetOption(params, "g", cliOption);
    SessionData(if t.Str? then t.s else "ci_sessions", if g.Str? then g.s else "default", matchIP)
  }

  /** A table named with `-t <name>` reaches both the class name and the template. */
  lemma SessionTableAgrees(params: map<Key, Value>, cliOption: string -> Value, table: string, matchIP: bool)
    requires Name("t") in params && params[Name("t")] == Str(table)
    ensures var p := SessionRunParams(params, cliOption);
            && p[Index(0)] == Str("_create_" + table + "_table")
            && SessionTemplateData(p, cliOption, matchIP).table == table
  {
  }

  /** With no table anywhere both default to `ci_sessions`, and the group to `default`. */
  lemma SessionDefaults(params: map<Key, Value>, cliOption: string -> Value, matchIP: bool)
    requires Name("t") !in params && Name("g") !in params
    requires cliOption("t") == Null && cliOption("g") == Null
    ensures var p := SessionRunParams(params, cliOption);
            && p[Index(0)] == Str("_create_ci_sessions_table")
            && SessionTemplateData(p, cliOption, matchIP) == SessionData("ci_sessions", "default", matchIP)
  {
    assert SessionRunTable(params, cliOption) == Str("ci_sessions");
    assert "_create_" + "ci_sessions" + "_table" == "_create_ci_sessions_table";
  }

  /** A bare `-t` flag names the class after PHP's `true` ("1") while the
      template keeps the default table. */
  lemma SessionBareFlagDisagrees(params: map<Key, Value>, cliOption: string -> Value, matchIP: bool)
    requires Name("t") in params && params[Name("t")] == Null && cliOption("t") == True
    ensures var p := SessionRunParams(params, cliOption);
            && p[Index(0)] == Str("_create_1_table")
            && SessionTemplateData(p, cliOption, matchIP).table == "ci_sessions"
  {
  }

  /** The session migration generator's `run`: the component, the directory and
      the class-name argument are set, then the class is generated; `render` is
      the template engine, `matchIP` the configured session setting and `stamp`
      the timestamp the `basename` hook puts in front of the file name. */
  method RunSessionMigration(g: Generator, params: map<Key, Value>, env: Env,
                             render: SessionData -> string, matchIP: bool, stamp: string)
    returns (w: Option<FileWrite>)
    modifies g`component, g`directory, g`params
    ensures g.component == "Migration" && g.directory == "Database\\Migrations"
    ensures g.params == SessionRunParams(params, env.cliOption)
    ensures ClassWritten(g.params, g.component, g.directory, g.hasClassName, g.enabledSuffixing, g.sortImports,
                         env, SessionPrepare(render(SessionTemplateData(g.params, env.cliOption, matchIP))), stamp, w)
  {
    var p := SessionRunParams(params, env.cliOption);
    w := GenerateIn(g, "Migration", "Database\\Migrations", p, env,
                    SessionPrepare(render(SessionTemplateData(p, env.cliOption, matchIP))), stamp);
  }

  /** A generator's `run` that sets the component and the directory and then
      calls `generateClass`. */
  method GenerateIn(g: Generator, component: string, directory: string, p: map<Key, Value>, env: Env,
                    prepare: string -> string, stamp: string)
    returns (w: Option<FileWrite>)
    modifies g`component, g`directory, g`params
    ensures g.component == component && g.directory == directory && g.params == p
    ensures ClassWritten(p, component, directory, g.hasClassName, g.enabledSuffixing, g.sortImports,
                         env, prepare, stamp, w)
  {
    g.component := component;
    g.directory := directory;
    w := g.GenerateClass(p, env, prepare, stamp);
    assert g.component == component && g.directory == directory && g.params == p;
  }

  /** The session migration generator's `prepare`: `parseTemplate` over the
      template rendered with the session data, with no pairs of its own, so only
      the trait's three placeholders are replaced. */
  function SessionPrepare(rendered: string): string -> string
  {
    cls => ParseTemplate(cls, [], [], rendered)
  }

  /** With no pairs of its own, the session `prepare` replaces only the trait's
      three placeholders, in their order. */
  lemma SessionPrepareSteps(rendered: string, cls: string)
    ensures SessionPrepare(rendered)(cls)
            == StrReplace(StrReplace(StrReplace(rendered, "<@php", "<?php"), "{namespace}", TemplateNamespace(cls)),
                          "{class}", ShortClass(cls))
  {
    ParseTemplateSteps(cls, [], [], rendered);
  }

  // ---------------------------------------------------------------------- cell

  /** `strrpos($s, '\\')`: the last backslash. */
  function LastBackslash(s: string): (r: Option<nat>)
    ensures r.Some? ==> r.value < |s| && s[r.value] == '\\' && '\\' !in s[r.value + 1..]
    ensures r.None? ==> '\\' !in s
  {
    if |s| == 0 then None
    else if s[|s| - 1] == '\\' then Some(|s| - 1)
    else
      var r := LastBackslash(s[..|s| - 1]);
      assert s == s[..|s| - 1] + [s[|s| - 1]];
      r
  }

  /** `substr($class, 0, strrpos($class, '\\') + 1)`: the namespace through its
      last backslash; without a backslash PHP's `false + 1` keeps the first character. */
  function CellNamespace(cls: string): (ns: string)
    ensures '\\' in cls ==> 1 <= |ns| <= |cls| && cls == ns + cls[|ns|..] && ns[|ns| - 1] == '\\' && '\\' !in cls[|ns|..]
    ensures '\\' !in cls ==> ns == cls[..if |cls| == 0 then 0 else 1]
  {
    match LastBackslash(cls)
    case None => cls[..if |cls| == 0 then 0 else 1]
    case Some(i) => cls[..i + 1]
  }

  /** `preg_replace('/([a-z][a-z0-9_\/\\\\]+)(_cell)$/i', '$1', $view)`: a matching
      view name loses its last five characters, which spell `_cell` in any case. */
  function StripCellSuffix(view: string): (r: string)
    ensures r == view || (|view| >= 5 && r == view[..|view| - 5] && EqualsIgnoreCase(view[|view| - 5..], "_cell"))
    ensures r != view <==> Matches(view, "_cell")
  {
    match FindMatch(view, "_cell", 0)
    case None => view
    case Some(p) => view[..|view| - 5]
  }

  /** A view name made of a letter, path characters and `_cell` loses the `_cell`. */
  lemma StripCellSuffixOfCellName(name: string)
    requires |name| >= 2 && IsLetter(name[0])
    requires forall k :: 0 < k < |name| ==> IsPathChar(name[k])
    ensures StripCellSuffix(name + "_cell") == name
  {
    var v := name + "_cell";
    assert v[|v| - 5..] == "_cell";
    assert MatchesAt(v, "_cell", 0);
    assert v[..|v| - 5] == name;
  }

  /** The view the cell generator writes next to its class. */
  function CellViewName(cls: string, viewBase: string): string
  {
    CellNamespace(cls) + StripCellSuffix(viewBase)
  }

  /** A qualified cell class puts its view in the same namespace. */
  lemma CellViewInClassNamespace(ns: string, short: string, viewBase: string)
    requires '\\' !in short
    ensures CellNamespace(ns + "\\" + short) == ns + "\\"
    ensures CellViewName(ns + "\\" + short, viewBase) == ns + "\\" + StripCellSuffix(viewBase)
  {
    var cls := ns + "\\" + short;
    assert cls[|ns|] == '\\';
    var n := CellNamespace(cls);
    assert n[|n| - 1] == cls[|n| - 1];
  }

  /** The cell generator forces `--suffix` on: the merged parameters read it as a flag. */
  lemma CellSuffixForced(params: map<Key, Value>, cliOption: string -> Value)
    ensures GetOption(params[Name("suffix") := Null], "suffix", cliOption) == True
  {
  }

  /** The cell generator's `run`: the class first, then the view named after it,
      both with `suffix` forced on. `classBasename` and `decamelize` are the
      framework helpers; the two `prepare` functions render the class and the
      view template. `env.answer` answers the class-name prompt and `viewAnswer`
      the view-name prompt that follows when no name came with the command. */
  method RunCell(g: Generator, params: map<Key, Value>, env: Env, viewAnswer: string,
                 classBasename: string -> string, decamelize: string -> string,
                 prepareClass: string -> string, prepareView: string -> string)
    returns (classWrite: Option<FileWrite>, viewWrite: Option<FileWrite>)
    modifies g`component, g`directory, g`params
    ensures g.component == "Cell" && g.directory == "Cells"
    ensures g.params == params[Name("suffix") := Null]
    ensures CellWritten(g.params, g.component, g.directory, g.hasClassName, g.enabledSuffixing, g.sortImports,
                        env, env.(answer := viewAnswer), classBasename, decamelize, prepareClass, prepareView, classWrite, viewWrite)
  {
    classWrite, viewWrite := GenerateCellIn(g, "Cell", "Cells", params[Name("suffix") := Null], env, viewAnswer,
                                            classBasename, decamelize, prepareClass, prepareView);
  }

  /** The two writes of the cell generator: the class as `generateClass` writes it,
      then the view in the namespace of the name `qualifyClassName` gives a second
      time, named after that class. */
  ghost predicate CellWritten(params: map<Key, Value>, component: string, directory: string,
                              hasClassName: bool, enabledSuffixing: bool, sortImports: bool, env: Env,
                              viewEnv: Env, classBasename: string -> string, decamelize: string -> string,
                              prepareClass: string -> string, prepareView: string -> string,
                              classWrite: Option<FileWrite>, viewWrite: Option<FileWrite>)
  {
    var cls := QualifiedName(params, component, directory, hasClassName, enabledSuffixing, viewEnv);
    && ClassWritten(params, component, directory, hasClassName, enabledSuffixing, sortImports,
                    env, prepareClass, "", classWrite)
    && ViewWritten(params, CellViewName(cls, decamelize(classBasename(cls))), sortImports, env, prepareView, viewWrite)
  }

  /** When the name came with the command, neither prompt is shown and the view
      is named after the very class that was written. */
  lemma CellViewOfNamedClass(params: map<Key, Value>, component: string, directory: string,
                             hasClassName: bool, enabledSuffixing: bool, env: Env, viewAnswer: string)
    requires Named(params, env)
    ensures QualifiedName(params, component, directory, hasClassName, enabledSuffixing, env.(answer := viewAnswer))
            == QualifiedName(params, component, directory, hasClassName, enabledSuffixing, env)
  {
    PromptOnlyWithoutName(params, env, hasClassName, viewAnswer);
  }

  /** The cell generator's `run` once the parameters are merged: the component
      and directory are set, then the class and the view are generated. */
  method GenerateCellIn(g: Generator, component: string, directory: string, p: map<Key, Value>, env: Env,
                        viewAnswer: string, classBasename: string -> string, decamelize: string -> string,
                        prepareClass: string -> string, prepareView: string -> string)
    returns (classWrite: Option<FileWrite>, viewWrite: Option<FileWrite>)
    modifies g`component, g`directory, g`params
    ensures g.component == component && g.directory == directory && g.params == p
    ensures CellWritten(p, component, directory, g.hasClassName, g.enabledSuffixing, g.sortImports,
                        env, env.(answer := viewAnswer), classBasename, decamelize, prepareClass, prepareView, classWrite, viewWrite)
  {
    g.component := component;
    g.directory := directory;
    classWrite, viewWrite := GenerateCell(g, p, env, viewAnswer, classBasename, decamelize, prepareClass, prepareView);
  }

  /** The two generate calls of the cell generator's `run`, with the component
      and directory already set. */
  method GenerateCell(g: Generator, p: map<Key, Value>, env: Env, viewAnswer: string,
                      classBasename: string -> string, decamelize: string -> string,
                      prepareClass: string -> string, prepareView: string -> string)
    returns (classWrite: Option<FileWrite>, viewWrite: Option<FileWrite>)
    modifies g`params
    ensures g.params == p && unchanged(g`component, g`directory)
    ensures CellWritten(g.params, g.component, g.directory, g.hasClassName, g.enabledSuffixing, g.sortImports,
                        env, env.(answer := viewAnswer), classBasename, decamelize, prepareClass, prepareView, classWrite, viewWrite)
  {
    classWrite := g.GenerateClass(p, env, prepareClass, "");
    var cls := g.QualifyClassName(env.(answer := viewAnswer));
    var view := CellViewName(cls, decamelize(classBasename(cls)));
    viewWrite := g.GenerateView(view, p, env, prepareView);
  }
}
