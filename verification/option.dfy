/** A value that may be absent. The walker uses `None` for a visit that the C
    code would perform as an out-of-bounds write (undefined behaviour). */
module Optional {

  datatype Option<+T> = None | Some(value: T)

}
