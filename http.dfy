/** An HTTP reply: a status with a JSON body, or a status with the `{ message }` of a refusal. */
module Http {

  datatype Response<+T> = Reply(status: int, body: T) | Refusal(status: int, message: string)

  const InternalError := "Erro interno do servidor"
}
