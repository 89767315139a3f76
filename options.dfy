/** Nullable values (`T | null`, `T | undefined`) of the dashboard's TypeScript code. */
module Options {

  datatype Option<+T> = None | Some(value: T) {

    /** `x ?? fallback`: the value when present, the fallback otherwise. */
    function GetOr(fallback: T): T {
      match this
      case Some(v) => v
      case None => fallback
    }
  }
}
