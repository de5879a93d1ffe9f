/** The application's last middleware: it turns an error thrown by a route
    into an HTTP status and a JSON body, deciding on the error's `code`,
    then its `name`, then the `NODE_ENV` setting. */
module ErrorHandler {
  import opened JsValues

  /** The fields of a thrown error the handler looks at. */
  datatype Error = Error(code: JsValue, name: JsValue, message: JsValue)

  /** `res.status(status).json({ error, message })`; a `message` that is
      undefined is left out of the JSON text. */
  datatype Reply = Reply(status: int, error: string, message: JsValue)

  const UniqueViolation := Str("P2002")
  const RecordNotFound := Str("P2025")
  const ValidationErrorName := Str("ValidationError")
  const Production := Str("production")

  /** `errorHandler(err, req, res, next)` with `process.env.NODE_ENV` given
      as `nodeEnv`. The checks use strict equality, so only the exact
      strings match. */
  function HandleError(err: Error, nodeEnv: JsValue): (r: Reply)
    ensures r.status in {400, 404, 500}
    ensures r.status == 404 <==> err.code == RecordNotFound
    ensures r.status == 400 <==>
      err.code == UniqueViolation || (err.code != RecordNotFound && err.name == ValidationErrorName)
    ensures err.code == UniqueViolation ==>
      r == Reply(400, "Violación de restricción única", Str("Ya existe un registro con estos datos"))
    ensures err.code == RecordNotFound ==>
      r == Reply(404, "Registro no encontrado", Str("El recurso solicitado no existe"))
    ensures r.status == 400 && err.code != UniqueViolation ==>
      r.error == "Error de validación" && r.message == err.message
    ensures r.status == 500 ==> r.error == "Error interno del servidor"
    ensures r.status == 500 ==>
      r.message == (if nodeEnv == Production then Str("Algo salió mal") else err.message)
  {
    if err.code == UniqueViolation then
      Reply(400, "Violación de restricción única", Str("Ya existe un registro con estos datos"))
    else if err.code == RecordNotFound then
      Reply(404, "Registro no encontrado", Str("El recurso solicitado no existe"))
    else if err.name == ValidationErrorName then
      Reply(400, "Error de validación", err.message)
    else
      Reply(500, "Error interno del servidor",
            if nodeEnv == Production then Str("Algo salió mal") else err.message)
  }

  /** A Prisma error code wins over the error's name: a unique-constraint or
      missing-record error named ValidationError is still reported by its
      code. */
  lemma CodeBeforeName(err: Error, nodeEnv: JsValue)
    requires err.code in {UniqueViolation, RecordNotFound}
    requires err.name == ValidationErrorName
    ensures HandleError(err, nodeEnv).status == (if err.code == UniqueViolation then 400 else 404)
    ensures HandleError(err, nodeEnv).error != "Error de validación"
  {
  }

  /** In production the reply never carries the message of an error the
      handler does not recognise: two such errors get the same reply. */
  lemma ProductionHidesInternalMessages(e1: Error, e2: Error)
    requires HandleError(e1, Production).status == 500
    requires HandleError(e2, Production).status == 500
    ensures HandleError(e1, Production) == HandleError(e2, Production)
  {
  }
}
