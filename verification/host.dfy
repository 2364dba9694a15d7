/** The process the build helpers run in. Everything the helpers read from
    outside (command-line flags, environment variables, the working directory,
    the file system and the glob and path libraries) is passed in as data. */
module Host {
  import opened JsStrings

  datatype World = World(
    /** `minimist(process.argv)`: each flag name with its parsed value. */
    argv: map<string, Value>,
    /** `process.env` */
    env: map<string, string>,
    /** `process.cwd()` */
    cwd: string,
    /** `fs.existsSync` */
    fileExists: string -> bool,
    /** `glob.sync` without an `ignore` option: the matches of a pattern, in glob's order. */
    glob: string -> seq<string>,
    /** `glob.hasMagic`: the pattern has wildcards. */
    hasMagic: string -> bool,
    /** `path.resolve` of one path against the working directory. */
    resolve: string -> string)

  /** A string method (`replace`, `split`) called on a setting whose resolved
      value is a boolean throws a TypeError. */
  datatype Error = NotAString(setting: string)

  datatype Result<T> = Ok(value: T) | Err(error: Error)
}
