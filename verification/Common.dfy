/** What several components share. */
module Common {

  datatype Option<T> = None | Some(value: T)

  /** The value of a digit in either case, 16 for any other character. */
  function DigitValue(c: char): (v: nat)
    ensures v <= 16
  {
    if '0' <= c <= '9' then c as int - '0' as int
    else if 'a' <= c <= 'f' then c as int - 'a' as int + 10
    else if 'A' <= c <= 'F' then c as int - 'A' as int + 10
    else 16
  }

  function Zeros(n: nat): string {
    seq(n, _ => '0')
  }
}
