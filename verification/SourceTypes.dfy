/** Where a fact comes from, as stored and as callers spell it. */
module SourceTypes {
  import opened Options

  datatype SourceType = UserStated | ToolOutput | LlmInferred | SummarizedFromN | Imported | SystemDerived

  function SourceTypeName(t: SourceType): string {
    match t
    case UserStated => "user_stated"
    case ToolOutput => "tool_output"
    case LlmInferred => "llm_inferred"
    case SummarizedFromN => "summarized_from_n"
    case Imported => "imported"
    case SystemDerived => "system_derived"
  }

  function ResolveSourceType(raw: string): Option<SourceType> {
    match raw
    case "user_stated" => Some(UserStated)
    case "tool_output" => Some(ToolOutput)
    case "llm_inferred" => Some(LlmInferred)
    case "summarized_from_n" => Some(SummarizedFromN)
    case "imported" => Some(Imported)
    case "system_derived" => Some(SystemDerived)
    case _ => None
  }

  /** A spelling resolves exactly when it is a type's own name, and then to that type. */
  lemma ResolvesIffNamed(raw: string, t: SourceType)
    ensures ResolveSourceType(raw) == Some(t) <==> raw == SourceTypeName(t)
  {
    if raw == SourceTypeName(t) {
      assert |"user_stated"| == 11 && |"tool_output"| == 11 && |"llm_inferred"| == 12;
    }
  }
}
