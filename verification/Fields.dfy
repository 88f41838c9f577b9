// What a dissector records about one buffer: named values, possibly nested.
module Fields {
  import opened Common

  datatype FieldValue = UInt(n: nat) | Str(s: string) | Octets(b: Bytes) | Tree(fields: FrameFields)

  datatype FrameFields = FrameFields(entries: seq<(string, FieldValue)>, protocol: Option<string>,
                                     info: Option<string>, malformed: seq<string>)

  const NO_FIELDS := FrameFields([], None, None, [])
}
