/**
 * The template store: `PromptManager` keeps the merged prompt texts, their
 * compiled templates and the optional override path. The file system is a
 * parameter (a path either holds a parsed YAML mapping or fails to load), and
 * Handlebars compilation is the opaque total function `compile`.
 */
module Prompts {
  import opened Wrappers

  /** The data a template is rendered with, as JSON. */
  datatype Value = Str(s: string) | List(items: seq<Value>) | Object(fields: map<string, Value>)

  /** A compiled template: a function from a context to text. */
  type Template = Value -> string

  /** Template name to template source text. */
  type PromptSet = map<string, string>

  /** What reading and parsing a YAML file that exists gives. */
  datatype FileContent = Yaml(entries: PromptSet) | Unreadable(reason: string)

  /** The files visible to the process; `existsSync(p)` is `p in fs`. */
  type FileSystem = map<string, FileContent>

  /**
   * The bundled default prompt file. The source resolves it against its own
   * directory; this constant stands for that resolved path, which is also the
   * path a load error names.
   */
  const DefaultPromptPath := "config/prompts.yml"

  function LoadError(path: string, reason: string): string {
    "Failed to load prompts from " + path + ": " + reason
  }

  function NotFoundError(name: string): string {
    "Template '" + name + "' not found"
  }

  /** The error `readFileSync` throws for a file that does not exist. */
  function MissingFileReason(path: string): string {
    "Error: ENOENT: no such file or directory, open '" + path + "'"
  }

  /** `loadYamlFile`: the parsed mapping, or the wrapped read or parse error. */
  function LoadYamlFile(fs: FileSystem, path: string): (r: Result<PromptSet, string>)
    ensures r.Success? <==> path in fs && fs[path].Yaml?
    ensures r.Success? ==> r.value == fs[path].entries
    ensures path in fs && fs[path].Unreadable? ==> r == Failure(LoadError(path, fs[path].reason))
    ensures path !in fs ==> r == Failure(LoadError(path, MissingFileReason(path)))
  {
    if path !in fs then
      Failure(LoadError(path, MissingFileReason(path)))
    else
      match fs[path]
      case Yaml(entries) => Success(entries)
      case Unreadable(reason) => Failure(LoadError(path, reason))
  }

  /** `{ ...defaults, ...overrides }`. */
  function Merge(defaults: PromptSet, overrides: PromptSet): (m: PromptSet)
    ensures m.Keys == defaults.Keys + overrides.Keys
    ensures forall k :: k in overrides ==> m[k] == overrides[k]
    ensures forall k :: k in defaults && k !in overrides ==> m[k] == defaults[k]
  {
    defaults + overrides
  }

  /** The override is read only when a non-empty path is configured and the file exists. */
  predicate OverrideActive(customPromptPath: Option<string>, fs: FileSystem) {
    customPromptPath.Some? && customPromptPath.value != "" && customPromptPath.value in fs
  }

  /** `loadPrompts`: the defaults, overlaid by the override when there is one. */
  function LoadPrompts(customPromptPath: Option<string>, fs: FileSystem): (r: Result<PromptSet, string>)
    ensures !OverrideActive(customPromptPath, fs) ==> r == LoadYamlFile(fs, DefaultPromptPath)
    ensures LoadYamlFile(fs, DefaultPromptPath).Failure? ==> r == LoadYamlFile(fs, DefaultPromptPath)
    ensures OverrideActive(customPromptPath, fs) && LoadYamlFile(fs, DefaultPromptPath).Success? ==>
      r == match LoadYamlFile(fs, customPromptPath.value)
           case Failure(e) => Failure(e)
           case Success(custom) => Success(Merge(LoadYamlFile(fs, DefaultPromptPath).value, custom))
  {
    match LoadYamlFile(fs, DefaultPromptPath)
    case Failure(e) => Failure(e)
    case Success(defaults) =>
      if OverrideActive(customPromptPath, fs) then
        match LoadYamlFile(fs, customPromptPath.value)
        case Failure(e) => Failure(e)
        case Success(custom) => Success(Merge(defaults, custom))
      else Success(defaults)
  }

  /** Once loaded, every entry of the override file is in effect, and every default it does not name. */
  lemma {:induction false} OverrideWins(path: string, fs: FileSystem)
    requires path != "" && path in fs && fs[path].Yaml?
    requires DefaultPromptPath in fs && fs[DefaultPromptPath].Yaml?
    ensures LoadPrompts(Some(path), fs).Success?
    ensures var p := LoadPrompts(Some(path), fs).value;
      (forall k :: k in fs[path].entries ==> k in p && p[k] == fs[path].entries[k]) &&
      (forall k :: k in fs[DefaultPromptPath].entries && k !in fs[path].entries ==>
         k in p && p[k] == fs[DefaultPromptPath].entries[k]) &&
      (forall k :: k in p ==> k in fs[path].entries || k in fs[DefaultPromptPath].entries)
  {
    assert OverrideActive(Some(path), fs);
    var p := LoadPrompts(Some(path), fs).value;
    assert p == Merge(fs[DefaultPromptPath].entries, fs[path].entries);
  }

  /** One compiled template per prompt. */
  function CompileAll(compile: string -> Template, prompts: PromptSet): (m: map<string, Template>)
    ensures m.Keys == prompts.Keys
    ensures forall k :: k in prompts ==> m[k] == compile(prompts[k])
  {
    map k | k in prompts :: compile(prompts[k])
  }

  /** The context `generateSummarizePrompt` renders with: the query and the titles and snippets. */
  function SummarizeContext(query: string, results: seq<(string, string)>): Value {
    Object(map["query" := Str(query),
               "results" := List(seq(|results|, i requires 0 <= i < |results| =>
                 Object(map["title" := Str(results[i].0), "snippet" := Str(results[i].1)])))])
  }

  class PromptManager {
    var prompts: PromptSet
    var compiledTemplates: map<string, Template>
    var customPromptPath: Option<string>
    /** Handlebars.compile */
    const compile: string -> Template

    /** Every prompt has exactly its own compiled template, and nothing else is compiled. */
    ghost predicate Valid()
      reads this
    {
      compiledTemplates == CompileAll(compile, prompts)
    }

    /**
     * `new PromptManager(customPromptPath)`: load, then compile; a load
     * failure is thrown from the constructor, so no manager exists.
     */
    static method Create(customPromptPath: Option<string>, fs: FileSystem, compile: string -> Template)
      returns (r: Result<PromptManager, string>)
      ensures r.Failure? <==> LoadPrompts(customPromptPath, fs).Failure?
      ensures r.Failure? ==> r.error == LoadPrompts(customPromptPath, fs).error
      ensures r.Success? ==> fresh(r.value) && r.value.Valid() && r.value.compile == compile
      ensures r.Success? ==> r.value.prompts == LoadPrompts(customPromptPath, fs).value
      ensures r.Success? ==> r.value.customPromptPath == customPromptPath
    {
      var loaded := LoadPrompts(customPromptPath, fs);
      if loaded.Failure? {
        return Failure(loaded.error);
      }
      var m := new PromptManager(customPromptPath, loaded.value, compile);
      r := Success(m);
    }

    constructor (customPromptPath: Option<string>, prompts: PromptSet, compile: string -> Template)
      ensures Valid()
      ensures this.customPromptPath == customPromptPath && this.prompts == prompts && this.compile == compile
    {
      this.customPromptPath := customPromptPath;
      this.prompts := prompts;
      this.compile := compile;
      this.compiledTemplates := map[];
      new;
      CompileTemplates();
    }

    /** `compileTemplates`: compile every prompt into the map; keys already there stay. */
    method CompileTemplates()
      modifies this`compiledTemplates
      ensures compiledTemplates == old(compiledTemplates) + CompileAll(compile, prompts)
    {
      var pending := prompts.Keys;
      while pending != {}
        invariant pending <= prompts.Keys
        invariant compiledTemplates == old(compiledTemplates) + CompileAll(compile, prompts - pending)
        decreases pending
      {
        var key :| key in pending;
        compiledTemplates := compiledTemplates[key := compile(prompts[key])];
        pending := pending - {key};
      }
      assert prompts - {} == prompts;
    }

    /** `getTemplate`: the compiled template of `name`, or the not-found error. */
    function GetTemplate(name: string): (r: Result<Template, string>)
      reads this
      requires Valid()
      ensures r.Success? <==> name in prompts
      ensures r.Success? ==> r.value == compile(prompts[name])
      ensures r.Failure? ==> r.error == NotFoundError(name)
    {
      if name in compiledTemplates then Success(compiledTemplates[name]) else Failure(NotFoundError(name))
    }

    /** `render`: the named template applied to the context. */
    function Render(templateName: string, context: Value): (r: Result<string, string>)
      reads this
      requires Valid()
      ensures r.Success? <==> templateName in prompts
      ensures r.Success? ==> r.value == compile(prompts[templateName])(context)
      ensures r.Failure? ==> r.error == NotFoundError(templateName)
    {
      match GetTemplate(templateName)
      case Failure(e) => Failure(e)
      case Success(template) => Success(template(context))
    }

    /** `generateSummarizePrompt`: render "summarize" with the query and results. */
    function GenerateSummarizePrompt(query: string, results: seq<(string, string)>): (r: Result<string, string>)
      reads this
      requires Valid()
      ensures r.Success? <==> "summarize" in prompts
      ensures r.Success? ==> r.value == compile(prompts["summarize"])(SummarizeContext(query, results))
      ensures r.Failure? ==> r.error == NotFoundError("summarize")
    {
      Render("summarize", SummarizeContext(query, results))
    }

    /**
     * `reloadPrompts`: load first; on failure nothing changes and the error is
     * reported; on success clear the compiled map and compile afresh.
     */
    method ReloadPrompts(fs: FileSystem) returns (error: Option<string>)
      requires Valid()
      modifies this`prompts, this`compiledTemplates
      ensures Valid()
      ensures LoadPrompts(customPromptPath, fs).Failure? ==>
        error == Some(LoadPrompts(customPromptPath, fs).error) &&
        prompts == old(prompts) && compiledTemplates == old(compiledTemplates)
      ensures LoadPrompts(customPromptPath, fs).Success? ==>
        error == None && prompts == LoadPrompts(customPromptPath, fs).value
    {
      var loaded := LoadPrompts(customPromptPath, fs);
      if loaded.Failure? {
        return Some(loaded.error);
      }
      prompts := loaded.value;
      compiledTemplates := map[];
      CompileTemplates();
      error := None;
    }

    /** `setCustomPromptPath`: the path is stored first, so it stays even when the reload fails. */
    method SetCustomPromptPath(path: string, fs: FileSystem) returns (error: Option<string>)
      requires Valid()
      modifies this
      ensures Valid()
      ensures customPromptPath == Some(path)
      ensures LoadPrompts(Some(path), fs).Failure? ==>
        error == Some(LoadPrompts(Some(path), fs).error) &&
        prompts == old(prompts) && compiledTemplates == old(compiledTemplates)
      ensures LoadPrompts(Some(path), fs).Success? ==>
        error == None && prompts == LoadPrompts(Some(path), fs).value
    {
      customPromptPath := Some(path);
      error := ReloadPrompts(fs);
    }
  }

  /**
   * After pointing the store at an override file that defines "summarize",
   * the next summarize prompt is rendered from the override's text, without a
   * new store.
   */
  method SwitchToCustomSummarize(m: PromptManager, path: string, fs: FileSystem, query: string, results: seq<(string, string)>)
    returns (prompt: Result<string, string>)
    requires m.Valid()
    requires path != "" && path in fs && fs[path].Yaml? && "summarize" in fs[path].entries
    requires DefaultPromptPath in fs && fs[DefaultPromptPath].Yaml?
    modifies m
    ensures prompt == Success(m.compile(fs[path].entries["summarize"])(SummarizeContext(query, results)))
  {
    var error := m.SetCustomPromptPath(path, fs);
    OverrideWins(path, fs);
    prompt := m.GenerateSummarizePrompt(query, results);
  }
}
