/** The token of the linear-design shell: five kinds, no scope tokens. */
module RshellTokens {

  datatype TokenType = None | Word | Sequence | Conjunction | Disjunction

  datatype Token = Token(kind: TokenType, text: string)
}
