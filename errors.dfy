/** `src/interface/http/errors.ts`: the HTTP error classes with their fixed
    status and code, the classification of any other error by marker words
    in its message, and the code and message of the error response body. */
module HttpErrors {
  import opened Wrappers
  import opened Text

  /** An `HttpError`: a message with a status code and a code name. */
  datatype HttpError = HttpError(message: string, statusCode: int, code: string)

  /** What reaches the classifier: an `HttpError` (of any subclass) or any
      other `Error`, of which only the message matters. */
  datatype Failure = Http(error: HttpError) | Plain(message: string)

  /** The eight subclasses of `HttpError`. */
  datatype HttpErrorClass =
    | BadRequest | Unauthorized | Forbidden | NotFound
    | Conflict | Validation | InternalServer | ServiceUnavailable
  {
    function StatusCode(): int {
      match this
      case BadRequest => 400
      case Unauthorized => 401
      case Forbidden => 403
      case NotFound => 404
      case Conflict => 409
      case Validation => 422
      case InternalServer => 500
      case ServiceUnavailable => 503
    }

    function Code(): string {
      match this
      case BadRequest => "BAD_REQUEST"
      case Unauthorized => "UNAUTHORIZED"
      case Forbidden => "FORBIDDEN"
      case NotFound => "NOT_FOUND"
      case Conflict => "CONFLICT"
      case Validation => "VALIDATION_ERROR"
      case InternalServer => "INTERNAL_SERVER_ERROR"
      case ServiceUnavailable => "SERVICE_UNAVAILABLE"
    }

    /** The message used when the constructor is given none. */
    function DefaultMessage(): string {
      match this
      case BadRequest => "Requisição inválida"
      case Unauthorized => "Não autorizado"
      case Forbidden => "Acesso negado"
      case NotFound => "Recurso não encontrado"
      case Conflict => "Conflito de dados"
      case Validation => "Dados inválidos"
      case InternalServer => "Erro interno do servidor"
      case ServiceUnavailable => "Serviço indisponível"
    }
  }

  /** `new HttpError(message, statusCode?, code?)`: an omitted status is 500
      and an omitted code is `INTERNAL_ERROR`. */
  function NewHttpError(message: string, statusCode: Option<int>, code: Option<string>): (e: HttpError)
    ensures e.message == message
    ensures statusCode.None? ==> e.statusCode == 500
    ensures code.None? ==> e.code == "INTERNAL_ERROR"
    ensures statusCode.Some? ==> e.statusCode == statusCode.value
    ensures code.Some? ==> e.code == code.value
  {
    HttpError(message,
              if statusCode.Some? then statusCode.value else 500,
              if code.Some? then code.value else "INTERNAL_ERROR")
  }

  /** `new <Subclass>Error(message?)`: the subclass's status and code, and
      its default message when none is given. */
  function NewClassError(cls: HttpErrorClass, message: Option<string>): (e: HttpError)
    ensures e.statusCode == cls.StatusCode() && e.code == cls.Code()
    ensures message.Some? ==> e.message == message.value
    ensures message.None? ==> e.message == cls.DefaultMessage()
  {
    NewHttpError(if message.Some? then message.value else cls.DefaultMessage(), Some(cls.StatusCode()), Some(cls.Code()))
  }

  /** The status tells the subclass: no two subclasses share a status, the
      first six are client errors and the last two server errors in the
      sense of section 15 of RFC 9110. The base class's defaults share the
      status of `InternalServerError` but not its code. */
  lemma ClassesAreDistinct(c: HttpErrorClass, d: HttpErrorClass)
    ensures c.StatusCode() == d.StatusCode() <==> c == d
    ensures c.Code() == d.Code() <==> c == d
    ensures 400 <= c.StatusCode() < 500 <==> !(c == InternalServer || c == ServiceUnavailable)
    ensures 500 <= c.StatusCode() < 600 <==> (c == InternalServer || c == ServiceUnavailable)
    ensures NewHttpError("", None, None).statusCode == InternalServer.StatusCode()
    ensures NewHttpError("", None, None).code != InternalServer.Code()
  {
    assert "INTERNAL_ERROR"[9] != "INTERNAL_SERVER_ERROR"[9];
    if c.Code() == d.Code() {
      assert |c.Code()| == |d.Code()| && c.Code()[0] == d.Code()[0];
    }
  }

  /** The status, message and code the classifier yields. */
  datatype ErrorMapping = ErrorMapping(statusCode: int, message: string, code: string)

  /** The answer for an error no marker classifies. */
  function InternalError(): ErrorMapping {
    ErrorMapping(500, "Erro interno do servidor", "INTERNAL_SERVER_ERROR")
  }

  /** The marker words, one predicate per class. */
  predicate NotFoundMarker(m: string) {
    Contains(m, "não encontrado")
  }

  predicate ConflictMarker(m: string) {
    Contains(m, "já cadastrado") || Contains(m, "já existe")
  }

  predicate ValidationMarker(m: string) {
    Contains(m, "inválido") || Contains(m, "obrigatório")
  }

  predicate UnavailableMarker(m: string) {
    Contains(m, "Timeout") || Contains(m, "indisponível")
  }

  /** `mapErrorToHttpStatus`. An `HttpError` keeps its own status, message
      and code. Any other error is classified by the first class, in the
      order not found, conflict, validation, unavailable, whose marker its
      message contains, keeping the message; with no marker it is an
      internal error whose message is replaced. */
  function MapErrorToHttpStatus(error: Failure): (r: ErrorMapping)
    ensures error.Http? ==> r == ErrorMapping(error.error.statusCode, error.error.message, error.error.code)
    ensures error.Plain? && NotFoundMarker(error.message) ==>
              r == ErrorMapping(NotFound.StatusCode(), error.message, NotFound.Code())
    ensures error.Plain? && !NotFoundMarker(error.message) && ConflictMarker(error.message) ==>
              r == ErrorMapping(Conflict.StatusCode(), error.message, Conflict.Code())
    ensures (error.Plain? && !NotFoundMarker(error.message) && !ConflictMarker(error.message)
             && ValidationMarker(error.message)) ==>
              r == ErrorMapping(Validation.StatusCode(), error.message, Validation.Code())
    ensures (error.Plain? && !NotFoundMarker(error.message) && !ConflictMarker(error.message)
             && !ValidationMarker(error.message) && UnavailableMarker(error.message)) ==>
              r == ErrorMapping(ServiceUnavailable.StatusCode(), error.message, ServiceUnavailable.Code())
    ensures (error.Plain? && !NotFoundMarker(error.message) && !ConflictMarker(error.message)
             && !ValidationMarker(error.message) && !UnavailableMarker(error.message)) ==>
              r == ErrorMapping(InternalServer.StatusCode(), InternalServer.DefaultMessage(), InternalServer.Code())
  {
    match error
    case Http(e) => ErrorMapping(e.statusCode, e.message, e.code)
    case Plain(m) =>
      if Contains(m, "não encontrado") then ErrorMapping(404, m, "NOT_FOUND")
      else if Contains(m, "já cadastrado") || Contains(m, "já existe") then ErrorMapping(409, m, "CONFLICT")
      else if Contains(m, "inválido") || Contains(m, "obrigatório") then ErrorMapping(422, m, "VALIDATION_ERROR")
      else if Contains(m, "Timeout") || Contains(m, "indisponível") then ErrorMapping(503, m, "SERVICE_UNAVAILABLE")
      else InternalError()
  }

  /** Every plain error is answered with the status and code of one of
      the subclasses, never as a bad request, unauthorized or forbidden; it
      keeps its message unless it is answered with 500. */
  lemma PlainErrorsAnswerAsSubclass(m: string)
    ensures var r := MapErrorToHttpStatus(Plain(m));
            exists c: HttpErrorClass ::
              (c.StatusCode() == r.statusCode && c.Code() == r.code
               && c != BadRequest && c != Unauthorized && c != Forbidden)
    ensures MapErrorToHttpStatus(Plain(m)).statusCode != 500 ==> MapErrorToHttpStatus(Plain(m)).message == m
    ensures MapErrorToHttpStatus(Plain(m)).statusCode == 500 ==> MapErrorToHttpStatus(Plain(m)) == InternalError()
  {
    var r := MapErrorToHttpStatus(Plain(m));
    if NotFoundMarker(m) {
      assert NotFound.StatusCode() == r.statusCode && NotFound.Code() == r.code;
    } else if ConflictMarker(m) {
      assert Conflict.StatusCode() == r.statusCode && Conflict.Code() == r.code;
    } else if ValidationMarker(m) {
      assert Validation.StatusCode() == r.statusCode && Validation.Code() == r.code;
    } else if UnavailableMarker(m) {
      assert ServiceUnavailable.StatusCode() == r.statusCode && ServiceUnavailable.Code() == r.code;
    } else {
      assert InternalServer.StatusCode() == r.statusCode && InternalServer.Code() == r.code;
    }
  }

  /** An error built from a subclass comes out with that subclass's status
      and code and its own message, whatever the message says. */
  lemma ClassErrorPassesThrough(cls: HttpErrorClass, message: Option<string>)
    ensures MapErrorToHttpStatus(Http(NewClassError(cls, message))) ==
            ErrorMapping(cls.StatusCode(), if message.Some? then message.value else cls.DefaultMessage(), cls.Code())
  {
  }

  /** The code and message of the body `createErrorResponse` builds. */
  datatype ErrorResponse = ErrorResponse(code: string, message: string)

  /** `createErrorResponse`, without the timestamp. The body carries the code
      and message of the class the error is answered as: its own for an
      `HttpError`; for any other error the code of the first class whose
      marker the message contains, with the message kept, or the internal
      error's code and default message. Either way the code in the body is
      a subclass's code exactly when the status sent is that subclass's
      status. */
  function CreateErrorResponse(error: Failure): (r: ErrorResponse)
    ensures error.Http? ==> r == ErrorResponse(error.error.code, error.error.message)
    ensures error.Plain? && NotFoundMarker(error.message) ==> r == ErrorResponse(NotFound.Code(), error.message)
    ensures error.Plain? && !NotFoundMarker(error.message) && ConflictMarker(error.message) ==>
              r == ErrorResponse(Conflict.Code(), error.message)
    ensures (error.Plain? && !NotFoundMarker(error.message) && !ConflictMarker(error.message)
             && ValidationMarker(error.message)) ==>
              r == ErrorResponse(Validation.Code(), error.message)
    ensures (error.Plain? && !NotFoundMarker(error.message) && !ConflictMarker(error.message)
             && !ValidationMarker(error.message) && UnavailableMarker(error.message)) ==>
              r == ErrorResponse(ServiceUnavailable.Code(), error.message)
    ensures (error.Plain? && !NotFoundMarker(error.message) && !ConflictMarker(error.message)
             && !ValidationMarker(error.message) && !UnavailableMarker(error.message)) ==>
              r == ErrorResponse(InternalServer.Code(), InternalServer.DefaultMessage())
    ensures error.Plain? ==>
              exists c: HttpErrorClass :: c.Code() == r.code && c.StatusCode() == MapErrorToHttpStatus(error).statusCode
    ensures error.Plain? ==>
              forall c: HttpErrorClass :: c.Code() == r.code <==> c.StatusCode() == MapErrorToHttpStatus(error).statusCode
  {
    var mapping := MapErrorToHttpStatus(error);
    if error.Plain? then
      PlainErrorsAnswerAsSubclass(error.message);
      var c: HttpErrorClass :| c.StatusCode() == mapping.statusCode && c.Code() == mapping.code;
      SameClass(c, mapping.statusCode, mapping.code);
      ErrorResponse(mapping.code, mapping.message)
    else
      ErrorResponse(mapping.code, mapping.message)
  }

  /** Once one class has both a given status and a given code, a class has
      that code exactly when it has that status. */
  lemma SameClass(c: HttpErrorClass, status: int, code: string)
    requires c.StatusCode() == status && c.Code() == code
    ensures forall d: HttpErrorClass :: d.Code() == code <==> d.StatusCode() == status
  {
    forall d: HttpErrorClass
      ensures d.Code() == code <==> d.StatusCode() == status
    {
      ClassesAreDistinct(c, d);
    }
  }

  // ---------------------------------------------------------------------
  // How some of the services' own messages are answered. The test is on
  // exact substrings: a message lacking one character of a marker cannot
  // contain it.

  /** A message lacking one character of each marker contains no marker: it
      is answered with 500. */
  lemma NoMarkerForMissingChars(s: string, a: nat, b: nat, c: nat, d: nat, e: nat, f: nat, g: nat)
    requires a < |"não encontrado"| && b < |"já cadastrado"| && c < |"já existe"| && d < |"inválido"|
    requires e < |"obrigatório"| && f < |"Timeout"| && g < |"indisponível"|
    requires forall i | 0 <= i < |s| ::
               s[i] != "não encontrado"[a] && s[i] != "já cadastrado"[b]
               && s[i] != "já existe"[c] && s[i] != "inválido"[d]
               && s[i] != "obrigatório"[e] && s[i] != "Timeout"[f]
               && s[i] != "indisponível"[g]
    ensures MapErrorToHttpStatus(Plain(s)) == InternalError()
  {
    NotContainsMissingChar(s, "não encontrado", a);
    NotContainsMissingChar(s, "já cadastrado", b);
    NotContainsMissingChar(s, "já existe", c);
    NotContainsMissingChar(s, "inválido", d);
    NotContainsMissingChar(s, "obrigatório", e);
    NotContainsMissingChar(s, "Timeout", f);
    NotContainsMissingChar(s, "indisponível", g);
  }

  /** A message holding a conflict marker, and lacking a character of the
      not-found marker, is a conflict. */
  lemma ConflictFor(s: string, a: nat, p: nat)
    requires a < |"não encontrado"|
    requires forall i | 0 <= i < |s| ::
               s[i] != "não encontrado"[a]
    requires p <= |s| && (OccursAt(s, "já cadastrado", p) || OccursAt(s, "já existe", p))
    ensures MapErrorToHttpStatus(Plain(s)) == ErrorMapping(409, s, "CONFLICT")
  {
    NotContainsMissingChar(s, "não encontrado", a);
    if OccursAt(s, "já cadastrado", p) {
      OccursContains(s, "já cadastrado", p);
    } else {
      OccursContains(s, "já existe", p);
    }
  }

  /** A message holding a validation marker, and lacking a character of
      each earlier marker, is a validation error. */
  lemma ValidationFor(s: string, a: nat, b: nat, c: nat, p: nat)
    requires a < |"não encontrado"| && b < |"já cadastrado"| && c < |"já existe"|
    requires forall i | 0 <= i < |s| ::
               s[i] != "não encontrado"[a] && s[i] != "já cadastrado"[b]
               && s[i] != "já existe"[c]
    requires p <= |s| && (OccursAt(s, "inválido", p) || OccursAt(s, "obrigatório", p))
    ensures MapErrorToHttpStatus(Plain(s)) == ErrorMapping(422, s, "VALIDATION_ERROR")
  {
    NotContainsMissingChar(s, "não encontrado", a);
    NotContainsMissingChar(s, "já cadastrado", b);
    NotContainsMissingChar(s, "já existe", c);
    if OccursAt(s, "inválido", p) {
      OccursContains(s, "inválido", p);
    } else {
      OccursContains(s, "obrigatório", p);
    }
  }

  /** A message holding an outage marker, and lacking a character of each
      earlier marker, is answered as a service outage. */
  lemma UnavailableFor(s: string, a: nat, b: nat, c: nat, d: nat, e: nat, p: nat)
    requires a < |"não encontrado"| && b < |"já cadastrado"| && c < |"já existe"|
    requires d < |"inválido"| && e < |"obrigatório"|
    requires forall i | 0 <= i < |s| ::
               s[i] != "não encontrado"[a] && s[i] != "já cadastrado"[b]
               && s[i] != "já existe"[c] && s[i] != "inválido"[d]
               && s[i] != "obrigatório"[e]
    requires p <= |s| && (OccursAt(s, "Timeout", p) || OccursAt(s, "indisponível", p))
    ensures MapErrorToHttpStatus(Plain(s)) == ErrorMapping(503, s, "SERVICE_UNAVAILABLE")
  {
    NotContainsMissingChar(s, "não encontrado", a);
    NotContainsMissingChar(s, "já cadastrado", b);
    NotContainsMissingChar(s, "já existe", c);
    NotContainsMissingChar(s, "inválido", d);
    NotContainsMissingChar(s, "obrigatório", e);
    if OccursAt(s, "Timeout", p) {
      OccursContains(s, "Timeout", p);
    } else {
      OccursContains(s, "indisponível", p);
    }
  }

  /** A failed lookup is answered with 404 and its message. */
  lemma NotFoundApplicant()
    ensures MapErrorToHttpStatus(Plain("Solicitante não encontrado")) == ErrorMapping(404, "Solicitante não encontrado", "NOT_FOUND")
  {
    OccursContains("Solicitante não encontrado", "não encontrado", 12);
  }

  /** A duplicate CPF is a conflict. */
  lemma ConflictCpf()
    ensures MapErrorToHttpStatus(Plain("CPF já cadastrado")) == ErrorMapping(409, "CPF já cadastrado", "CONFLICT")
  {
    ConflictFor("CPF já cadastrado", 0, 4);
  }

  /** A CPF failing the check digits is a validation error. */
  lemma ValidationCpf()
    ensures MapErrorToHttpStatus(Plain("CPF inválido")) == ErrorMapping(422, "CPF inválido", "VALIDATION_ERROR")
  {
    ValidationFor("CPF inválido", 1, 0, 0, 4);
  }

  /** A missing id is a validation error. */
  lemma ValidationId()
    ensures MapErrorToHttpStatus(Plain("ID é obrigatório")) == ErrorMapping(422, "ID é obrigatório", "VALIDATION_ERROR")
  {
    ValidationFor("ID é obrigatório", 0, 0, 0, 5);
  }

  /** A timed-out CEP lookup is answered as a service outage. */
  lemma UnavailableCepTimeout()
    ensures MapErrorToHttpStatus(Plain("Timeout na consulta do CEP")) == ErrorMapping(503, "Timeout na consulta do CEP", "SERVICE_UNAVAILABLE")
  {
    UnavailableFor("Timeout na consulta do CEP", 1, 0, 0, 2, 1, 0);
  }

  /** The 30% ceiling carries no marker: it is answered with 500 and its
      text is lost. */
  lemma UnclassifiedCeiling()
    ensures MapErrorToHttpStatus(Plain("Parcela excede 30% da renda")) == InternalError()
  {
    NoMarkerForMissingChars("Parcela excede 30% da renda", 1, 0, 0, 2, 1, 0, 8);
  }

  /** Neither does a non-positive amount. */
  lemma UnclassifiedValor()
    ensures MapErrorToHttpStatus(Plain("Valor deve ser positivo")) == InternalError()
  {
    NoMarkerForMissingChars("Valor deve ser positivo", 1, 0, 0, 3, 1, 0, 8);
  }
}
