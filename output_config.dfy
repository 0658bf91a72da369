/** The generator's configuration: the three output dialects, the validation
    inclusion levels, the line-ending styles and the OutputConfig record the
    annotation processor fills in. */
module OutputConfigs {

  /** OutputFormat: EXTJS4, EXTJS5, TOUCH2. */
  datatype OutputFormat = ExtJs4 | ExtJs5 | Touch2 {
    /** The enum constant's name. */
    function Name(): string {
      match this
      case ExtJs4 => "EXTJS4"
      case ExtJs5 => "EXTJS5"
      case Touch2 => "TOUCH2"
    }
  }

  /** IncludeValidation: NONE, BUILTIN, ALL. */
  datatype IncludeValidation = IncludeNone | IncludeBuiltin | IncludeAll {
    function Name(): string {
      match this
      case IncludeNone => "NONE"
      case IncludeBuiltin => "BUILTIN"
      case IncludeAll => "ALL"
    }
  }

  /** LineEnding: CRLF, LF, SYSTEM (the platform's line.separator). */
  datatype LineEnding = CrLf | Lf | SystemEnding {
    function Name(): string {
      match this
      case CrLf => "CRLF"
      case Lf => "LF"
      case SystemEnding => "SYSTEM"
    }
  }

  datatype OutputConfig = OutputConfig(
    outputFormat: OutputFormat,
    debug: bool,
    includeValidation: IncludeValidation,
    useSingleQuotes: bool,
    surroundApiWithQuotes: bool,
    lineEnding: LineEnding)
}
