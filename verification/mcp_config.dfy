/** The MCP configuration merge of `setupMcpConfiguration` in bin/cli.js. */
module McpConfig {
  import opened Json
  import opened Files
  import opened VSCodeProfile

  const AtlassianKey: string := "atlassian/atlassian-mcp-server"

  const AtlassianSseUrl: string := "https://mcp.atlassian.com/v1/sse"
  const AtlassianGalleryUrl: string := "https://api.mcp.github.com/2025-09-15/v0/servers/28c650c6-5e61-4ab7-9eb2-505be6350476"

  /** The server entry added when there is no template. */
  function AtlassianServer(): Value {
    Obj(map["type" := Str("http"), "url" := Str(AtlassianSseUrl),
            "gallery" := Str(AtlassianGalleryUrl),
            "version" := Str("1.0.0")])
  }

  /** The template location: `mcp.json` in the source directory, else in its
      `templates` subdirectory, else the one bundled with the CLI (whether or
      not that one exists).  A specification helper; `TemplateSelection`
      states which template the written file is merged from. */
  function TemplateMcpPath(files: map<string, Doc>, dirs: set<string>, sourceDir: string, bundled: string): string
  {
    if ExistsIn(files, dirs, Join(sourceDir, "mcp.json")) then Join(sourceDir, "mcp.json")
    else if ExistsIn(files, dirs, Join(Join(sourceDir, "templates"), "mcp.json")) then Join(Join(sourceDir, "templates"), "mcp.json")
    else bundled
  }

  /** The configuration merged into: the existing file unless `force` is set
      (a file that does not parse throws), else `{}`. */
  function McpBase(files: map<string, Doc>, dirs: set<string>, mcpPath: string, force: bool): (r: Attempt<Value>)
    ensures force || !ExistsIn(files, dirs, mcpPath) ==> r == Returned(Obj(map[]))
    ensures !force && mcpPath in files && files[mcpPath].JsonDoc? ==> r == Returned(files[mcpPath].v)
  {
    if ExistsIn(files, dirs, mcpPath) && !force then ReadJson(files, mcpPath) else Returned(Obj(map[]))
  }

  /** The configuration written: with no template, the Atlassian server is
      spread over the existing servers; with a template, its servers are
      spread over the existing ones (missing servers start as `{}`) and its
      `inputs`, when truthy, replace the existing ones.  Reading a property
      of a `null` configuration or template throws. */
  function MergedMcp(config: Value, template: Option<Value>): (r: Attempt<Value>)
    ensures r.Threw? <==> config.Null? || (template.Some? && template.value.Null?)
    ensures r.Returned? && !config.Obj? ==> r.value == config
    ensures r.Returned? && config.Obj? ==> r.value.Obj? && "servers" in r.value.fields
  {
    if config.Null? then Threw
    else match template
      case None => Returned(MergedWithoutTemplate(config))
      case Some(t) =>
        if t.Null? then Threw else Returned(MergedWithTemplate(config, t))
  }

  /** The merge when there is no template. */
  function MergedWithoutTemplate(config: Value): (r: Value)
    requires config != Null
    ensures !config.Obj? ==> r == config
    ensures config.Obj? ==> r.Obj? && "servers" in r.fields
  {
    Assign(config, "servers", Obj(Spread(Get(Some(config), "servers")) + map[AtlassianKey := AtlassianServer()]))
  }

  /** The merge with a template that was read. */
  function MergedWithTemplate(config: Value, t: Value): (r: Value)
    requires config != Null && t != Null
    ensures !config.Obj? ==> r == config
    ensures config.Obj? ==> r.Obj? && "servers" in r.fields
  {
    var initialised :=
      if !Truthy(Or(Get(Some(config), "servers"), Null)) then Assign(config, "servers", Obj(map[])) else config;
    var merged := Assign(initialised, "servers",
                         Obj(Spread(Get(Some(initialised), "servers")) + Spread(Get(Some(t), "servers"))));
    if Truthy(Or(Get(Some(t), "inputs"), Null)) then Assign(merged, "inputs", Get(Some(t), "inputs").value)
    else merged
  }

  /** With a template, the servers are the union of the existing ones and the
      template's, the template winning; `inputs` is the template's when it
      has truthy ones and is otherwise left as it was; nothing else changes. */
  lemma McpTemplateMerge(config: Value, t: Value, k: string)
    requires config.Obj? && t.Obj?
    ensures var merged := MergedMcp(config, Some(t)).value.fields;
      var before := Spread(Get(Some(config), "servers"));
      var added := Spread(Get(Some(t), "servers"));
      && merged["servers"].Obj?
      && (k in merged["servers"].fields <==> k in before || k in added)
      && (k in added ==> merged["servers"].fields[k] == added[k])
      && (k in before && k !in added ==> merged["servers"].fields[k] == before[k])
      && (Truthy(Or(Get(Some(t), "inputs"), Null)) ==> merged["inputs"] == t.fields["inputs"])
      && (!Truthy(Or(Get(Some(t), "inputs"), Null)) ==> Get(Some(Obj(merged)), "inputs") == Get(Some(config), "inputs"))
      && (k != "servers" && k != "inputs" ==> Get(Some(Obj(merged)), k) == Get(Some(config), k))
  {
    var before := Spread(Get(Some(config), "servers"));
    var added := Spread(Get(Some(t), "servers"));
    var servers := config.fields["servers" := Obj(before + added)];
    WithTemplateFields(config, t);
    assert MergedMcp(config, Some(t)) == Returned(MergedWithTemplate(config, t));
    if Truthy(Or(Get(Some(t), "inputs"), Null)) {
      assert MergedWithTemplate(config, t).fields == servers["inputs" := t.fields["inputs"]];
    } else {
      assert MergedWithTemplate(config, t).fields == servers;
    }
  }

  /** The merged configuration, key by key. */
  lemma WithTemplateFields(config: Value, t: Value)
    requires config.Obj? && t.Obj?
    ensures var servers := config.fields["servers" := Obj(Spread(Get(Some(config), "servers")) + Spread(Get(Some(t), "servers")))];
      MergedWithTemplate(config, t).fields ==
        if Truthy(Or(Get(Some(t), "inputs"), Null)) then servers["inputs" := t.fields["inputs"]] else servers
  {
    var before := Spread(Get(Some(config), "servers"));
    var added := Spread(Get(Some(t), "servers"));
    var initialised :=
      if !Truthy(Or(Get(Some(config), "servers"), Null)) then Assign(config, "servers", Obj(map[])) else config;
    assert initialised.Obj? && Spread(Get(Some(initialised), "servers")) == before;
    var merged := Assign(initialised, "servers", Obj(before + added));
    assert merged.fields == config.fields["servers" := Obj(before + added)];
  }

  /** Without a template, exactly the Atlassian server is added (replacing an
      entry of the same name); a fresh configuration holds only it. */
  lemma McpWithoutTemplate(config: Value, k: string)
    requires config.Obj?
    ensures var merged := MergedMcp(config, None).value.fields;
      var before := Spread(Get(Some(config), "servers"));
      && merged["servers"].Obj?
      && merged["servers"].fields.Keys == before.Keys + {AtlassianKey}
      && merged["servers"].fields[AtlassianKey] == AtlassianServer()
      && (k in before && k != AtlassianKey ==> merged["servers"].fields[k] == before[k])
      && (k != "servers" ==> Get(Some(Obj(merged)), k) == Get(Some(config), k))
    ensures MergedMcp(Obj(map[]), None) ==
      Returned(Obj(map["servers" := Obj(map[AtlassianKey := AtlassianServer()])]))
  {
    var empty: map<string, Value> := map[];
    assert Spread(Get(Some(Obj(empty)), "servers")) == empty;
    assert empty + map[AtlassianKey := AtlassianServer()] == map[AtlassianKey := AtlassianServer()];
  }

  /** With `force`, whatever the existing configuration held is discarded:
      the result depends on the template alone. */
  lemma ForceDiscardsExisting(files: map<string, Doc>, dirs: set<string>, files': map<string, Doc>, dirs': set<string>,
                              mcpPath: string, template: Option<Value>)
    ensures McpBase(files, dirs, mcpPath, true) == McpBase(files', dirs', mcpPath, true) == Returned(Obj(map[]))
    ensures MergedMcp(McpBase(files, dirs, mcpPath, true).value, template) ==
            MergedMcp(McpBase(files', dirs', mcpPath, true).value, template)
  {
  }

  /** The file `setupMcpConfiguration` writes, for the profile directory it
      chose, the template path it settled on, and the directories once the
      profile directory has been created.  A specification helper;
      `TemplateSelection` states its properties and `SetupMcpConfiguration` is
      proved against it. */
  function McpAfter(files: map<string, Doc>, dirs: set<string>, mcpPath: string, templatePath: string, force: bool): Attempt<Value> {
    match McpBase(files, dirs, mcpPath, force)
    case Threw => Threw
    case Returned(config) =>
      if !ExistsIn(files, dirs, templatePath) then MergedMcp(config, None)
      else match ReadJson(files, templatePath)
        case Threw => Threw
        case Returned(t) => MergedMcp(config, Some(t))
  }

  /** The written configuration is merged from the first template that
      exists among the source directory's `mcp.json`, its
      `templates/mcp.json` and the bundled one; a first template that does
      not parse makes the setup throw; and with no template at all the
      Atlassian server is added instead.  It is stated over one directory
      set: `SetupMcpConfiguration` selects the template before creating the
      user directory and merges after, and the two sets differ only by that
      directory, which adds no file and so no `mcp.json`. */
  lemma TemplateSelection(files: map<string, Doc>, dirs: set<string>, sourceDir: string, bundled: string,
                          mcpPath: string, force: bool)
    ensures var local := Join(sourceDir, "mcp.json");
      var nested := Join(Join(sourceDir, "templates"), "mcp.json");
      var base := McpBase(files, dirs, mcpPath, force);
      var after := McpAfter(files, dirs, mcpPath, TemplateMcpPath(files, dirs, sourceDir, bundled), force);
      && (base.Returned? && local in files && files[local].JsonDoc? ==>
            after == MergedMcp(base.value, Some(files[local].v)))
      && (base.Returned? && !ExistsIn(files, dirs, local) && nested in files && files[nested].JsonDoc? ==>
            after == MergedMcp(base.value, Some(files[nested].v)))
      && (base.Returned? && !ExistsIn(files, dirs, local) && !ExistsIn(files, dirs, nested)
            && bundled in files && files[bundled].JsonDoc? ==>
            after == MergedMcp(base.value, Some(files[bundled].v)))
      && (base.Returned? && !ExistsIn(files, dirs, local) && !ExistsIn(files, dirs, nested)
            && !ExistsIn(files, dirs, bundled) ==>
            after == MergedMcp(base.value, None))
      && (local in files && files[local].Plain? ==> after.Threw?)
  {
  }

  /** `setupMcpConfiguration`: choose the profile directory and the template,
      create the directory, merge and write `mcp.json` there. */
  method SetupMcpConfiguration(fs: Fs, home: string, sourceDir: string, bundledTemplate: string, force: bool,
                               profile: string, workspaces: seq<string>, listing: seq<string>, answer: PromptAnswer)
    returns (r: Attempt<()>, mcpPath: string)
    modifies fs
    ensures var userData := ProfilePath(home, profile, old(fs.files), old(fs.dirs), workspaces, listing, answer);
      mcpPath == Join(userData, "mcp.json") && fs.dirs == old(fs.dirs) + {userData}
    ensures var templatePath := TemplateMcpPath(old(fs.files), old(fs.dirs), sourceDir, bundledTemplate);
      match McpAfter(old(fs.files), fs.dirs, mcpPath, templatePath, force)
      case Threw => r.Threw? && fs.files == old(fs.files)
      case Returned(v) => r == Returned(()) && fs.files == old(fs.files)[mcpPath := JsonDoc(v)]
  {
    var userData := ProfilePath(home, profile, fs.files, fs.dirs, workspaces, listing, answer);
    mcpPath := Join(userData, "mcp.json");
    var templatePath := TemplateMcpPath(fs.files, fs.dirs, sourceDir, bundledTemplate);
    fs.EnsureDir(userData);
    var config: Value := Obj(map[]);
    if fs.Exists(mcpPath) && !force {
      var read := ReadJson(fs.files, mcpPath);
      if read.Threw? {
        return Threw, mcpPath;
      }
      config := read.value;
    }
    var merged: Attempt<Value>;
    if !fs.Exists(templatePath) {
      merged := MergedMcp(config, None);
    } else {
      var template := ReadJson(fs.files, templatePath);
      if template.Threw? {
        return Threw, mcpPath;
      }
      merged := MergedMcp(config, Some(template.value));
    }
    if merged.Threw? {
      return Threw, mcpPath;
    }
    fs.WriteJson(mcpPath, merged.value);
    r := Returned(());
  }
}
