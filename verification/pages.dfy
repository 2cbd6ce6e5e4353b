/** HTML page configuration of pages/pages.go: the name of the base
    template, the directory templates live in, and the files to parse. */
module Pages {

  datatype Pages = Pages(base: string, templates: seq<string>, templatesPath: string)

  /** The file of template `name` in directory `dir`, `"<dir>/<name>.html"`. */
  function TemplateFile(dir: string, name: string): string
  {
    dir + "/" + name + ".html"
  }

  /** The template name a file of `dir` stands for, if the file has the
      `"<dir>/<name>.html"` shape. */
  function TemplateName(dir: string, file: string): string
    requires |dir| + 6 <= |file|
  {
    file[|dir| + 1..|file| - 5]
  }

  /** Different names give different files, and the name can be read back
      off the file. */
  lemma TemplateFileInjective(dir: string, name: string, other: string)
    ensures TemplateName(dir, TemplateFile(dir, name)) == name
    ensures TemplateFile(dir, name) == TemplateFile(dir, other) ==> name == other
  {
    var file := TemplateFile(dir, name);
    assert file[|dir| + 1..|file| - 5] == name;
    if file == TemplateFile(dir, other) {
      var file' := TemplateFile(dir, other);
      assert file'[|dir| + 1..|file'| - 5] == other;
    }
  }

  /** The loop of `NewPages`: one file per template name, in order. */
  function TemplateList(dir: string, names: seq<string>): (files: seq<string>)
    ensures |files| == |names|
    ensures forall i :: 0 <= i < |names| ==> files[i] == TemplateFile(dir, names[i])
    decreases |names|
  {
    if |names| == 0 then []
    else [TemplateFile(dir, names[0])] + TemplateList(dir, names[1..])
  }

  /** `NewPages`: the base name and directory are stored unchanged, and the
      template list holds the file of each given name, in the given order
      (none for no names). */
  function NewPages(baseName: string, tmpPath: string, templates: seq<string>): (p: Pages)
    ensures p.base == baseName && p.templatesPath == tmpPath
    ensures |p.templates| == |templates|
    ensures forall i :: 0 <= i < |templates| ==> p.templates[i] == TemplateFile(tmpPath, templates[i])
  {
    Pages(baseName, TemplateList(tmpPath, templates), tmpPath)
  }
}
