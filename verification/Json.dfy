/** JSON values as `encoding/json` decodes them, shared by the cache, the request
    transforms and the command templates. A number is represented by the text
    `encoding/json` prints for it: distinct float64 values print differently. */
module Json {

  datatype Option<+T> = None | Some(value: T)

  predicate IsNumberChar(c: char) {
    '0' <= c <= '9' || c == '-' || c == '+' || c == '.' || c == 'e' || c == 'E'
  }

  type NumberText = s: string | |s| > 0 && (s[0] == '-' || '0' <= s[0] <= '9')
                                && forall i :: 0 <= i < |s| ==> IsNumberChar(s[i])
    witness "0"

  datatype Value =
    | Null
    | Bool(b: bool)
    | Number(text: NumberText)
    | Str(s: string)
    | Array(items: seq<Value>)
    | Object(fields: map<string, Value>)
}
