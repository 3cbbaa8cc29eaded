/** The values the pipeline passes between its stages: page records, the
    optional keys of their dictionaries, and the exceptions it raises. */
module Records {

  datatype Option<T> = None | Some(value: T) {
    /** `d.get(key, default)` once the key's presence is known. */
    function GetOr(default: T): T
    {
      match this
      case Some(v) => v
      case None => default
    }
  }

  /** The exceptions the pipeline raises, by the condition that raises them. */
  datatype Error =
    | ModelNotLoaded             // RuntimeError: no model or no processor
    | UnsupportedFileType        // ValueError: the path has no supported suffix
    | UnsupportedExtractionMode  // ValueError: the extraction mode is not one of three
    | ModelNotCallable           // TypeError: the absent processor is called
    | NameError                  // NameError: a name that was never imported is used

  /** A value or the exception that ended the computation. */
  datatype Result<T> = Ok(value: T) | Err(error: Error)

  /** One page record, the dictionary `{"page": ..., "text": ...}`; a key the
      dictionary does not hold is `None`. */
  datatype Entry = Entry(page: Option<string>, text: Option<string>)

  /** `entry.get("text", "")` */
  function TextOf(e: Entry): string
  {
    e.text.GetOr("")
  }

  /** `entry.get("page", "")` */
  function PageOf(e: Entry): string
  {
    e.page.GetOr("")
  }
}
