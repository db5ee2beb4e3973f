/** What tokenizers produce and rows are made of. */
module TokenIds {

  type Token = nat
}
