/**
 * The state and the steps of `GeneratorTrait`: the flags and the stored
 * command parameters of a generator, how an option is read, how the class
 * name is qualified, how the file path and the file content are built.
 * Writing the file is left to the caller: `GenerateClass` and `GenerateView`
 * return the write they would perform.
 */
module GeneratorTrait {
  import opened Wrappers
  import opened Php
  import opened ClassNames
  import opened Imports

  /** A key of the PHP `$params` array: a positional argument or a named option. */
  datatype Key = Index(i: nat) | Name(name: string)

  /** What the generator asks of the framework, fixed for one command run. */
  datatype Env = Env(
    cliOption: string -> Value,          // `CLI::getOption`
    segment: Option<string>,             // `CLI::getSegment(2)`
    answer: string,                      // what `CLI::prompt` returns for a missing class name
    appNamespace: string,                // `APP_NAMESPACE`
    singular: string -> string,          // inflector `singular`
    pascalize: string -> string,         // inflector `pascalize`
    namespaceBase: string -> seq<string> // the autoloader's directories for a namespace
  )

  /** The file `generateFile` is asked to write. */
  datatype FileWrite = FileWrite(target: string, content: string)

  /** `$this->params[0] ?? CLI::getSegment(2)`, then the prompt when the class
      name is required; a missing name that is not required reads as "". */
  function ClassArgument(params: map<Key, Value>, env: Env, hasClassName: bool): string
  {
    if Index(0) in params && !params[Index(0)].Null? then AsString(params[Index(0)])
    else if env.segment.Some? then env.segment.value
    else if hasClassName then env.answer
    else ""
  }

  /** A class name came with the command: as `params[0]` or as the second segment. */
  predicate Named(params: map<Key, Value>, env: Env)
  {
    (Index(0) in params && !params[Index(0)].Null?) || env.segment.Some?
  }

  /** `params[0]` wins over the segment; the prompt's answer is read only when
      no name came with the command and one is required, and then it is the name. */
  lemma PromptOnlyWithoutName(params: map<Key, Value>, env: Env, hasClassName: bool, answer: string)
    ensures Index(0) in params && !params[Index(0)].Null? ==> ClassArgument(params, env, hasClassName) == AsString(params[Index(0)])
    ensures (Index(0) !in params || params[Index(0)].Null?) && env.segment.Some? ==>
              ClassArgument(params, env, hasClassName) == env.segment.value
    ensures !Named(params, env) && !hasClassName ==> ClassArgument(params, env, hasClassName) == ""
    ensures Named(params, env) || !hasClassName ==>
              ClassArgument(params, env.(answer := answer), hasClassName) == ClassArgument(params, env, hasClassName)
    ensures !Named(params, env) && hasClassName ==> ClassArgument(params, env.(answer := answer), hasClassName) == answer
  {
  }

  /** `getOption`: a stored option wins over the command line, and one stored
      without a value is a flag that reads as `true`. */
  function GetOption(params: map<Key, Value>, name: string, cliOption: string -> Value): (v: Value)
    ensures Name(name) !in params ==> v == cliOption(name)
    ensures Name(name) in params && params[Name(name)].Null? ==> v == True
    ensures Name(name) in params && !params[Name(name)].Null? ==> v == params[Name(name)]
  {
    if Name(name) !in params then cliOption(name)
    else if params[Name(name)].Null? then True
    else params[Name(name)]
  }

  /** The name `qualifyClassName` returns for the given fields of a generator. */
  function QualifiedName(params: map<Key, Value>, component: string, directory: string,
                         hasClassName: bool, enabledSuffixing: bool, env: Env): string
  {
    QualifiedClassName(ClassArgument(params, env, hasClassName), env.singular(component), directory,
                       enabledSuffixing, GetOption(params, "suffix", env.cliOption),
                       GetOption(params, "namespace", env.cliOption), env.appNamespace, env.pascalize)
  }

  /** `buildPath`: "" when the autoloader knows no usable directory for the root
      namespace; otherwise the joined path, with `stamp` in front of the file's
      base name (what the `basename` hook adds; "" by default). */
  function BuildPath(params: map<Key, Value>, cls: string, env: Env, stamp: string): (r: string)
    ensures var bases := env.namespaceBase(NamespaceOption(GetOption(params, "namespace", env.cliOption), env.appNamespace));
            r == "" <==> |bases| == 0 || !Truthy(Str(bases[0]))
  {
    var namespace := NamespaceOption(GetOption(params, "namespace", env.cliOption), env.appNamespace);
    var bases := env.namespaceBase(namespace);
    if |bases| == 0 || !Truthy(Str(bases[0])) then ""
    else JoinPath(bases[0], namespace, cls, stamp)
  }

  /** With a known directory and the default `basename` hook the target is the
      class's file below that directory. */
  lemma BuildPathOfKnownNamespace(params: map<Key, Value>, cls: string, env: Env)
    requires var bases := env.namespaceBase(NamespaceOption(GetOption(params, "namespace", env.cliOption), env.appNamespace));
             |bases| > 0 && Truthy(Str(bases[0]))
    ensures var namespace := NamespaceOption(GetOption(params, "namespace", env.cliOption), env.appNamespace);
            var base := env.namespaceBase(namespace)[0];
            var r := BuildPath(params, cls, env, "");
            && r == FilePath(base, namespace, cls)
            && StartsWith(r, base + "/") && EndsWith(r, ".php")
  {
    var namespace := NamespaceOption(GetOption(params, "namespace", env.cliOption), env.appNamespace);
    var base := env.namespaceBase(namespace)[0];
    JoinPathStamp(base, namespace, cls, "");
    FilePathShape(base, namespace, cls);
  }

  /** What `generateClass` does with the generator's fields: nothing is written
      when the path is empty; otherwise the qualified class goes to that path, with
      the prepared template as its built content. */
  ghost predicate ClassWritten(params: map<Key, Value>, component: string, directory: string,
                               hasClassName: bool, enabledSuffixing: bool, sortImports: bool,
                               env: Env, prepare: string -> string, stamp: string, w: Option<FileWrite>)
  {
    var cls := QualifiedName(params, component, directory, hasClassName, enabledSuffixing, env);
    var target := BuildPath(params, cls, env, stamp);
    && (w.None? <==> !Truthy(Str(target)))
    && (w.Some? ==> w.value.target == target && IsBuiltContent(prepare(cls), sortImports, w.value.content))
  }

  /** What `generateView` does: as `generateClass`, for a view name used as given. */
  ghost predicate ViewWritten(params: map<Key, Value>, view: string, sortImports: bool,
                              env: Env, prepare: string -> string, w: Option<FileWrite>)
  {
    var target := BuildPath(params, view, env, "");
    && (w.None? <==> !Truthy(Str(target)))
    && (w.Some? ==> w.value.target == target && IsBuiltContent(prepare(view), sortImports, w.value.content))
  }

  class Generator {
    var component: string
    var directory: string
    var hasClassName: bool
    var sortImports: bool
    var enabledSuffixing: bool
    var params: map<Key, Value>

    /** A generator before its `run`: every flag on, no parameters yet. */
    constructor(component: string, directory: string)
      ensures this.component == component && this.directory == directory
      ensures hasClassName && sortImports && enabledSuffixing
      ensures params == map[]
    {
      this.component := component;
      this.directory := directory;
      hasClassName := true;
      sortImports := true;
      enabledSuffixing := true;
      params := map[];
    }

    method SetHasClassName(hasClassName: bool) returns (self: Generator)
      modifies this`hasClassName
      ensures this.hasClassName == hasClassName && self == this
    {
      this.hasClassName := hasClassName;
      self := this;
    }

    method SetSortImports(sortImports: bool) returns (self: Generator)
      modifies this`sortImports
      ensures this.sortImports == sortImports && self == this
    {
      this.sortImports := sortImports;
      self := this;
    }

    method SetEnabledSuffixing(enabledSuffixing: bool) returns (self: Generator)
      modifies this`enabledSuffixing
      ensures this.enabledSuffixing == enabledSuffixing && self == this
    {
      this.enabledSuffixing := enabledSuffixing;
      self := this;
    }

    /** `qualifyClassName`: the name the user typed, brought under the root namespace. */
    method QualifyClassName(env: Env) returns (cls: string)
      ensures cls == QualifiedName(params, component, directory, hasClassName, enabledSuffixing, env)
      ensures StartsWith(cls, RootNamespace(GetOption(params, "namespace", env.cliOption), env.appNamespace))
      ensures '\\' in cls
    {
      cls := ClassArgument(params, env, hasClassName);
      var component := env.singular(this.component);
      cls := CanonicalSuffix(cls, component);
      cls := WithSuffix(cls, component, enabledSuffixing, GetOption(params, "suffix", env.cliOption));
      cls := CanonicalPath(cls, env.pascalize);
      var namespace := RootNamespace(GetOption(params, "namespace", env.cliOption), env.appNamespace);
      QualifiedUnderRoot(ClassArgument(params, env, hasClassName), component, directory,
                         enabledSuffixing, GetOption(params, "suffix", env.cliOption),
                         GetOption(params, "namespace", env.cliOption), env.appNamespace, env.pascalize);
      if !StartsWith(cls, namespace) {
        cls := namespace + directory + "\\" + ReplaceChar(cls, '/', '\\');
      }
    }

    /** `buildContent` on the prepared template: when sorting is on and the template
        holds a run of `use` lines, the run's lines are sorted in place and every
        occurrence of the run is replaced by the sorted lines. */
    method BuildContent(template: string) returns (content: string)
      ensures IsBuiltContent(template, sortImports, content)
      ensures !sortImports || ImportRun(template).None? ==> content == template
    {
      var run := ImportRun(template);
      if sortImports && run.Some? {
        var lines := Split(run.value, '\n');
        var imports := new string[|lines|](i requires 0 <= i < |lines| => lines[i]);
        assert imports[..] == lines;
        SortLines(imports);
        content := StrReplace(template, run.value, Join('\n', imports[..]));
      } else {
        content := template;
      }
    }

    /** `generateClass`: store the parameters, qualify the name, build the path;
        nothing is written when the path is empty. `prepare` is the generator's
        own `prepare` applied to the class name. */
    method GenerateClass(p: map<Key, Value>, env: Env, prepare: string -> string, stamp: string)
      returns (w: Option<FileWrite>)
      modifies this`params
      ensures params == p
      ensures unchanged(this`component, this`directory, this`hasClassName, this`enabledSuffixing, this`sortImports)
      ensures ClassWritten(params, component, directory, hasClassName, enabledSuffixing, sortImports,
                           env, prepare, stamp, w)
    {
      params := p;
      var cls := QualifyClassName(env);
      var target := BuildPath(params, cls, env, stamp);
      if !Truthy(Str(target)) {
        return None;
      }
      var content := BuildContent(prepare(cls));
      w := Some(FileWrite(target, content));
    }

    /** `generateView`: as `generateClass`, for a view name that is used as given. */
    method GenerateView(view: string, p: map<Key, Value>, env: Env, prepare: string -> string)
      returns (w: Option<FileWrite>)
      modifies this`params
      ensures params == p
      ensures unchanged(this`component, this`directory, this`hasClassName, this`enabledSuffixing, this`sortImports)
      ensures ViewWritten(params, view, sortImports, env, prepare, w)
    {
      params := p;
      var target := BuildPath(params, view, env, "");
      if !Truthy(Str(target)) {
        return None;
      }
      var content := BuildContent(prepare(view));
      w := Some(FileWrite(target, content));
    }
  }

  /** The CLI is consulted only for an option the parameters do not hold: two
      command lines agree on every stored option, and a stored option is truthy
      unless it holds one of PHP's falsy strings. */
  lemma StoredOptionIgnoresCli(params: map<Key, Value>, name: string, cli1: string -> Value, cli2: string -> Value)
    requires Name(name) in params
    ensures GetOption(params, name, cli1) == GetOption(params, name, cli2) != Null
    ensures Truthy(GetOption(params, name, cli1)) <==> params[Name(name)] !in {Str(""), Str("0")}
  {
  }
}
