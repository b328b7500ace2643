/** The ConstString generator: appends a fixed string. */
module ConstString {
  import opened Outcomes
  import opened Bytes

  /**
   * accept(t, u): one put of the stored string's bytes. The tokenizer is not read;
   * the bytes depend on nothing but the string, so every call writes the same ones.
   */
  method Accept(str: string, u: ByteBuffer) returns (st: Status)
    requires u.Valid()
    modifies u, u.hb
    ensures u.Valid()
    ensures st == if |str| <= u.hb.Length - old(u.position) then Done else Overflow
    ensures st == Done ==> u.Contents() == old(u.Contents()) + Encode(str)
    ensures st == Overflow ==> u.position == old(u.position) && u.hb[..] == old(u.hb[..])
  {
    var ok := u.Put(Encode(str));
    st := if ok then Done else Overflow;
  }
}
