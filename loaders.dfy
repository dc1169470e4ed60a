// `load_yaml_file` (github_linter/loaders.py:11-28): a cached read of one
// file, parsed as YAML, with `{}` standing for a file that is missing or
// does not parse.
module Loaders {
  import opened Wrappers
  import opened Config
  import opened Github
  import Session

  /** The YAML documents the parser reads from file contents; text it lacks does not parse. */
  type YamlParser = map<string, Value>

  /**
   * The document `load_yaml_file` returns for the file it read: `{}` for no
   * file or text that does not parse, and no document (None) for an empty
   * text. So a truthy document is always the parse of the file's text.
   */
  function LoadYaml(file: Option<File>, parser: YamlParser): (r: Value)
    ensures file.None? ==> r == Dict(map[])
    ensures Truthy(r) ==> file.Some? && file.value.content != "" && file.value.content in parser &&
                          r == parser[file.value.content]
    ensures file.Some? && file.value.content != "" && file.value.content in parser ==> r == parser[file.value.content]
  {
    if file.None? then Dict(map[])
    else if file.value.content == "" then Null
    else if file.value.content !in parser then Dict(map[])
    else parser[file.value.content]
  }

  /** `load_yaml_file(repo, path)`: the read goes through the file cache. */
  method LoadYamlFile(linter: Session.RepoLinter, path: string, parser: YamlParser) returns (doc: Value, file: Option<File>)
    modifies linter`filecache
    ensures doc == LoadYaml(file, parser)
    ensures Session.ReadAnswer(old(linter.filecache), linter.repository.contents, path, file)
    ensures Session.CacheHolds(linter.filecache, path, file) && linter.filecache - {path} == old(linter.filecache) - {path}
    ensures Session.Possible(old(linter.filecache), linter.repository.contents, path, file)
    ensures Session.CacheFrom(old(linter.filecache), linter.filecache, linter.repository.contents, {})
  {
    file := linter.CachedGetFile(path, false);
    doc := LoadYaml(file, parser);
  }
}
