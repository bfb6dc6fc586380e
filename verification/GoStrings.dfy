/** Functions of Go's strings package that several models use. */
module GoStrings {
  /** strings.ReplaceAll: every non-overlapping occurrence, from the left. */
  function ReplaceAll(s: string, pattern: string, with: string): string
    requires pattern != ""
  {
    if s == "" then ""
    else if pattern <= s then with + ReplaceAll(s[|pattern|..], pattern, with)
    else [s[0]] + ReplaceAll(s[1..], pattern, with)
  }
}
