/** Return codes shared by every function of the tool: zero is success and
    every error is negative. */
module ExecutionCodes {
  const EX_OK: int := 0
  const EX_ERR: int := -1
  const EX_EOF: int := -2
  const EX_SYS: int := -3
  const EX_UNSUPPORTED: int := -4
  const EX_EMPTY_PARAM: int := -30
  const EX_NULL_PARAM: int := -31
  const EX_WRONG_PARAM: int := -32
}
