/** The package.json merge of `installProjectDependencies` in bin/cli.js.
    `npm install` is a parameter: whether it succeeds. */
module ProjectPackage {
  import opened Json
  import opened Files
  import opened Chatmodes

  const Sections: set<string> := {"scripts", "devDependencies", "dependencies"}

  /** The package.json written for a project that has none, named after the
      project's directory. */
  function NewPackage(name: string, cliVersion: string): Value {
    Obj(map["name" := Str(name), "version" := Str("1.0.0"),
            "description" := Str(Description(cliVersion))])
  }

  const DescriptionPrefix: string := "Project with TestGenie chatmodes - Created by TestGenie CLI v"

  function Description(cliVersion: string): string {
    DescriptionPrefix + cliVersion
  }

  /** `{...pkg[key], ...template[key]}`. */
  function MergedSection(pkg: Value, template: Value, key: string): (r: map<string, Value>)
    ensures r.Keys == Spread(Get(Some(pkg), key)).Keys + Spread(Get(Some(template), key)).Keys
  {
    Spread(Get(Some(pkg), key)) + Spread(Get(Some(template), key))
  }

  /** The package after the three section merges: reading a section of a
      `null` package or template throws; the sections of a package that is
      not an object are not kept. */
  function MergedPackage(pkg: Value, template: Value): (r: Attempt<Value>)
    ensures r.Threw? <==> pkg.Null? || template.Null?
    ensures r.Returned? && !pkg.Obj? ==> r.value == pkg
  {
    if pkg.Null? || template.Null? then Threw
    else match pkg
      case Obj(fields) =>
        Returned(Obj(fields["scripts" := Obj(MergedSection(pkg, template, "scripts"))]
                           ["devDependencies" := Obj(MergedSection(pkg, template, "devDependencies"))]
                           ["dependencies" := Obj(MergedSection(pkg, template, "dependencies"))]))
      case _ => Returned(pkg)
  }

  /** Each section is the union of the package's and the template's, the
      template winning on a clash; every other top-level key is kept. */
  lemma PackageMerge(pkg: Value, template: Value, key: string, k: string)
    requires pkg.Obj? && template.Obj?
    ensures var merged := MergedPackage(pkg, template).value.fields;
      && merged.Keys == pkg.fields.Keys + Sections
      && (key in Sections ==>
            merged[key].Obj?
            && (k in merged[key].fields <==> k in Spread(Get(Some(pkg), key)) || k in Spread(Get(Some(template), key)))
            && (k in Spread(Get(Some(template), key)) ==> merged[key].fields[k] == Spread(Get(Some(template), key))[k])
            && (k in Spread(Get(Some(pkg), key)) && k !in Spread(Get(Some(template), key)) ==>
                  merged[key].fields[k] == Spread(Get(Some(pkg), key))[k]))
      && (key !in Sections && key in pkg.fields ==> merged[key] == pkg.fields[key])
  {
  }

  /** Merging the same template a second time changes nothing. */
  lemma PackageMergeIdempotent(pkg: Value, template: Value)
    requires MergedPackage(pkg, template).Returned?
    ensures MergedPackage(MergedPackage(pkg, template).value, template) == MergedPackage(pkg, template)
  {
    if pkg.Obj? {
      var once := MergedPackage(pkg, template).value;
      var s, d, p := MergedSection(pkg, template, "scripts"), MergedSection(pkg, template, "devDependencies"),
                     MergedSection(pkg, template, "dependencies");
      assert once.fields == pkg.fields["scripts" := Obj(s)]["devDependencies" := Obj(d)]["dependencies" := Obj(p)];
      SectionRemerged(pkg, template, once, "scripts");
      SectionRemerged(pkg, template, once, "devDependencies");
      SectionRemerged(pkg, template, once, "dependencies");
      assert once.fields["scripts" := Obj(s)]["devDependencies" := Obj(d)]["dependencies" := Obj(p)] == once.fields;
    }
  }

  lemma SectionRemerged(pkg: Value, template: Value, once: Value, key: string)
    requires once.Obj? && key in once.fields && once.fields[key] == Obj(MergedSection(pkg, template, key))
    ensures MergedSection(once, template, key) == MergedSection(pkg, template, key)
  {
    SpreadRightWins(Spread(Get(Some(pkg), key)), Spread(Get(Some(template), key)));
  }

  /** The package `installProjectDependencies` starts from: the project's
      package.json if it exists (reading it may throw), else a new one. */
  function StartingPackage(files: map<string, Doc>, dirs: set<string>, projectPath: string,
                           cliVersion: string): Attempt<Value>
  {
    var pkgPath := Join(projectPath, "package.json");
    if ExistsIn(files, dirs, pkgPath) then ReadJson(files, pkgPath)
    else Returned(NewPackage(Basename(projectPath), cliVersion))
  }

  /** The package.json `installProjectDependencies` writes, or `Threw` when
      reading the existing file or the template throws or the merge does.  A
      specification helper; `FreshPackage` states its properties and
      `InstallProjectDependencies` is proved against it. */
  function PackageAfter(files: map<string, Doc>, dirs: set<string>, projectPath: string,
                        templatePath: string, cliVersion: string): Attempt<Value>
  {
    match StartingPackage(files, dirs, projectPath, cliVersion)
    case Threw => Threw
    case Returned(p) =>
      match ReadJson(files, templatePath)
      case Threw => Threw
      case Returned(t) => MergedPackage(p, t)
  }

  /** A project without package.json gets one named after its directory,
      at version 1.0.0, whose sections are the template's. */
  lemma FreshPackage(files: map<string, Doc>, dirs: set<string>, projectPath: string,
                     templatePath: string, cliVersion: string)
    requires !ExistsIn(files, dirs, Join(projectPath, "package.json"))
    requires templatePath in files && files[templatePath].JsonDoc? && files[templatePath].v.Obj?
    ensures var r := PackageAfter(files, dirs, projectPath, templatePath, cliVersion);
      var t := files[templatePath].v;
      && r.Returned?
      && Get(Some(r.value), "name") == Some(Str(Basename(projectPath)))
      && Get(Some(r.value), "version") == Some(Str("1.0.0"))
      && Get(Some(r.value), "scripts") == Some(Obj(Spread(Get(Some(t), "scripts"))))
      && Get(Some(r.value), "devDependencies") == Some(Obj(Spread(Get(Some(t), "devDependencies"))))
      && Get(Some(r.value), "dependencies") == Some(Obj(Spread(Get(Some(t), "dependencies"))))
  {
    var t := files[templatePath].v;
    assert StartingPackage(files, dirs, projectPath, cliVersion) == Returned(NewPackage(Basename(projectPath), cliVersion));
    assert ReadJson(files, templatePath) == Returned(t);
    NewPackageMerged(Basename(projectPath), cliVersion, t);
  }

  lemma NewPackageMerged(name: string, cliVersion: string, t: Value)
    requires t.Obj?
    ensures var r := MergedPackage(NewPackage(name, cliVersion), t);
      && r.Returned?
      && Get(Some(r.value), "name") == Some(Str(name))
      && Get(Some(r.value), "version") == Some(Str("1.0.0"))
      && Get(Some(r.value), "scripts") == Some(Obj(Spread(Get(Some(t), "scripts"))))
      && Get(Some(r.value), "devDependencies") == Some(Obj(Spread(Get(Some(t), "devDependencies"))))
      && Get(Some(r.value), "dependencies") == Some(Obj(Spread(Get(Some(t), "dependencies"))))
  {
    var created := NewPackage(name, cliVersion);
    assert created.fields.Keys == {"name", "version", "description"};
    MergedIntoBare(created, t, "name");
    MergedIntoBare(created, t, "version");
  }

  /** Merging into a package with none of the sections gives the template's
      sections and keeps the package's other keys. */
  lemma MergedIntoBare(pkg: Value, template: Value, k: string)
    requires pkg.Obj? && template.Obj?
    requires "scripts" !in pkg.fields && "devDependencies" !in pkg.fields && "dependencies" !in pkg.fields
    ensures var r := MergedPackage(pkg, template);
      && r.Returned?
      && Get(Some(r.value), "scripts") == Some(Obj(Spread(Get(Some(template), "scripts"))))
      && Get(Some(r.value), "devDependencies") == Some(Obj(Spread(Get(Some(template), "devDependencies"))))
      && Get(Some(r.value), "dependencies") == Some(Obj(Spread(Get(Some(template), "dependencies"))))
      && (k in pkg.fields ==> Get(Some(r.value), k) == Some(pkg.fields[k]))
  {
    SectionFromTemplate(pkg, template, "scripts");
    SectionFromTemplate(pkg, template, "devDependencies");
    SectionFromTemplate(pkg, template, "dependencies");
  }

  /** A section the package lacks is the template's. */
  lemma SectionFromTemplate(pkg: Value, template: Value, key: string)
    requires pkg.Obj? && key !in pkg.fields
    ensures MergedSection(pkg, template, key) == Spread(Get(Some(template), key))
  {
    assert Spread(Get(Some(pkg), key)) == map[];
  }

  /** `installProjectDependencies`: the merged package.json is written, then
      `npm install` runs; its failure is an error, but the file stays
      written. */
  method InstallProjectDependencies(fs: Fs, projectPath: string, templatePath: string,
                                    cliVersion: string, npmSucceeds: bool) returns (r: Attempt<()>)
    modifies fs`files
    ensures match PackageAfter(old(fs.files), fs.dirs, projectPath, templatePath, cliVersion)
      case Threw => r.Threw? && fs.files == old(fs.files)
      case Returned(v) =>
        fs.files == old(fs.files)[Join(projectPath, "package.json") := JsonDoc(v)]
        && (r.Returned? <==> npmSucceeds)
        && IsProject(fs.files, fs.dirs, projectPath)
  {
    var pkgPath := Join(projectPath, "package.json");
    ghost var expected := PackageAfter(fs.files, fs.dirs, projectPath, templatePath, cliVersion);
    var pkg: Value;
    if fs.Exists(pkgPath) {
      var read := ReadJson(fs.files, pkgPath);
      if read.Threw? {
        assert expected.Threw?;
        return Threw;
      }
      pkg := read.value;
    } else {
      pkg := NewPackage(Basename(projectPath), cliVersion);
    }
    var template := ReadJson(fs.files, templatePath);
    if template.Threw? {
      assert expected.Threw?;
      return Threw;
    }
    var merged := MergedPackage(pkg, template.value);
    assert expected == merged;
    if merged.Threw? {
      return Threw;
    }
    fs.WriteJson(pkgPath, merged.value);
    if !npmSucceeds {
      return Threw;
    }
    r := Returned(());
  }
}
