/** The request form of aprobaciones/forms.py (`SolicitudAprobacionForm`)
    together with the parts of Django's field cleaning it relies on: text
    fields are stripped, must be non-empty, must respect their `max_length`
    and may not hold NUL characters; the type must be one of the form's
    choices; then `clean_titulo` and `clean_descripcion` impose minimum
    lengths on the stripped values. */
module Forms {
  import opened Wrappers
  import opened Constants
  import opened Text

  const TITULO_MAX: nat := 200
  const USUARIO_MAX: nat := 100
  const TITULO_MIN: nat := 5
  const DESCRIPCION_MIN: nat := 10

  /** The form's own type choices: other labels, the same codes as the constants. */
  const FORM_TIPOS_SOLICITUD: seq<Choice> := [
    Choice("despliegue", "Despliegue"),
    Choice("acceso", "Acceso a Herramientas"),
    Choice("cambio_tecnico", "Cambio Técnico"),
    Choice("pipeline", "Cambios en Pipeline/CI-CD"),
    Choice("incorporacion", "Nueva Incorporación Técnica"),
    Choice("otro", "Otro")
  ]

  datatype FormError =
    | Required
    | MaxLength(limit: nat)
    | NullCharacters
    | InvalidChoice(value: string)
    | TituloCorto
    | DescripcionCorta

  datatype Campo = CampoTitulo | CampoDescripcion | CampoSolicitante | CampoResponsable | CampoTipo

  datatype FieldErrors = FieldErrors(campo: Campo, errores: seq<FormError>)

  /** The submitted values, as strings (a missing value is the empty string). */
  datatype RawForm = RawForm(titulo: string, descripcion: string, solicitante: string, responsable: string, tipoSolicitud: string)

  /** The cleaned values handed to the store. */
  datatype FormData = FormData(titulo: string, descripcion: string, solicitante: string, responsable: string, tipoSolicitud: string)

  /** The codes the form offers are exactly the request-type codes of the constants. */
  lemma FormChoicesMatchConstants()
    ensures Codes(FORM_TIPOS_SOLICITUD) == TIPO_CODES
    ensures Codes(FORM_TIPOS_SOLICITUD) == Codes(TIPOS_SOLICITUD)
  {
    CodeListsMatchTables();
  }

  /** A required Django `CharField`: strip, reject empty, then run the length and
      NUL-character validators, reporting every one that fails. */
  function CleanCharField(raw: string, maxLength: Option<nat>): (r: Result<string, seq<FormError>>)
    ensures r.Ok? <==>
      && Strip(raw) != ""
      && (maxLength.Some? ==> |Strip(raw)| <= maxLength.value)
      && '\0' !in Strip(raw)
    ensures r.Ok? ==> r.value == Strip(raw)
    ensures r.Err? ==> r.error != []
    ensures Strip(raw) == "" ==> r == Err([Required])
  {
    var v := Strip(raw);
    if v == "" then Err([Required])
    else
      var errs :=
        (if maxLength.Some? && |v| > maxLength.value then [MaxLength(maxLength.value)] else [])
        + (if '\0' in v then [NullCharacters] else []);
      if errs == [] then Ok(v) else Err(errs)
  }

  /** A required Django `ChoiceField` over the form's type choices (no stripping). */
  function CleanTipoField(raw: string): (r: Result<string, seq<FormError>>)
    ensures r.Ok? <==> raw in TIPO_CODES
    ensures r.Ok? ==> r.value == raw
    ensures raw == "" ==> r == Err([Required])
    ensures raw != "" && raw !in TIPO_CODES ==> r == Err([InvalidChoice(raw)])
  {
    FormChoicesMatchConstants();
    if raw == "" then Err([Required])
    else if raw !in Codes(FORM_TIPOS_SOLICITUD) then Err([InvalidChoice(raw)])
    else Ok(raw)
  }

  /** `clean_titulo`: a title shorter than five characters is refused; any other is returned as it is. */
  function CleanTitulo(titulo: string): (r: Result<string, FormError>)
    ensures r.Ok? <==> |titulo| >= TITULO_MIN
    ensures r.Ok? ==> r.value == titulo
    ensures r.Err? ==> r.error == TituloCorto
  {
    if |titulo| < 5 then Err(TituloCorto) else Ok(titulo)
  }

  /** `clean_descripcion`: a description shorter than ten characters is refused;
      any other is returned as it is. */
  function CleanDescripcion(descripcion: string): (r: Result<string, FormError>)
    ensures r.Ok? <==> |descripcion| >= DESCRIPCION_MIN
    ensures r.Ok? ==> r.value == descripcion
    ensures r.Err? ==> r.error == DescripcionCorta
  {
    if |descripcion| < 10 then Err(DescripcionCorta) else Ok(descripcion)
  }

  /** One field through Django's field cleaning and then the form's own
      `clean_<field>` hook, which only runs when the field cleaned. */
  function CleanWithHook(field: Result<string, seq<FormError>>, hook: string -> Result<string, FormError>): Result<string, seq<FormError>> {
    match field
    case Err(es) => Err(es)
    case Ok(v) =>
      match hook(v)
      case Ok(w) => Ok(w)
      case Err(e) => Err([e])
  }

  function NoHook(v: string): Result<string, FormError> {
    Ok(v)
  }

  function ErrorsOf(campo: Campo, r: Result<string, seq<FormError>>): seq<FieldErrors> {
    if r.Err? then [FieldErrors(campo, r.error)] else []
  }

  /** The `titulo` field: a required text field of at most 200 characters, then `clean_titulo`. */
  function CampoTituloLimpio(raw: string): (r: Result<string, seq<FormError>>)
    ensures r.Ok? <==> TITULO_MIN <= |Strip(raw)| <= TITULO_MAX && '\0' !in Strip(raw)
    ensures r.Ok? ==> r.value == Strip(raw)
    ensures r.Err? ==> r.error != []
  {
    CleanWithHook(CleanCharField(raw, Some(TITULO_MAX)), CleanTitulo)
  }

  /** The `descripcion` field: a required text field of any length, then `clean_descripcion`. */
  function CampoDescripcionLimpio(raw: string): (r: Result<string, seq<FormError>>)
    ensures r.Ok? <==> |Strip(raw)| >= DESCRIPCION_MIN && '\0' !in Strip(raw)
    ensures r.Ok? ==> r.value == Strip(raw)
    ensures r.Err? ==> r.error != []
  {
    CleanWithHook(CleanCharField(raw, None), CleanDescripcion)
  }

  /** The `solicitante` and `responsable` fields: required text of at most 100 characters. */
  function CampoUsuarioLimpio(raw: string): (r: Result<string, seq<FormError>>)
    ensures r.Ok? <==> 0 < |Strip(raw)| <= USUARIO_MAX && '\0' !in Strip(raw)
    ensures r.Ok? ==> r.value == Strip(raw)
    ensures r.Err? ==> r.error != []
  {
    CleanWithHook(CleanCharField(raw, Some(USUARIO_MAX)), NoHook)
  }

  /** `is_valid()` on the whole form: every field is cleaned; the form is valid
      when none fails, and otherwise reports the failing fields in declaration order. */
  function ValidarFormulario(raw: RawForm): (r: Result<FormData, seq<FieldErrors>>)
    ensures r.Ok? <==>
      && TITULO_MIN <= |Strip(raw.titulo)| <= TITULO_MAX && '\0' !in Strip(raw.titulo)
      && |Strip(raw.descripcion)| >= DESCRIPCION_MIN && '\0' !in Strip(raw.descripcion)
      && 0 < |Strip(raw.solicitante)| <= USUARIO_MAX && '\0' !in Strip(raw.solicitante)
      && 0 < |Strip(raw.responsable)| <= USUARIO_MAX && '\0' !in Strip(raw.responsable)
      && raw.tipoSolicitud in TIPO_CODES
    ensures r.Ok? ==> r.value == FormData(Strip(raw.titulo), Strip(raw.descripcion), Strip(raw.solicitante), Strip(raw.responsable), raw.tipoSolicitud)
    ensures r.Err? ==> r.error != []
  {
    var t := CampoTituloLimpio(raw.titulo);
    var d := CampoDescripcionLimpio(raw.descripcion);
    var s := CampoUsuarioLimpio(raw.solicitante);
    var p := CampoUsuarioLimpio(raw.responsable);
    var k := CleanTipoField(raw.tipoSolicitud);
    if t.Ok? && d.Ok? && s.Ok? && p.Ok? && k.Ok? then
      Ok(FormData(t.value, d.value, s.value, p.value, k.value))
    else
      Err(ErrorsOf(CampoTitulo, t) + ErrorsOf(CampoDescripcion, d) + ErrorsOf(CampoSolicitante, s)
          + ErrorsOf(CampoResponsable, p) + ErrorsOf(CampoTipo, k))
  }

  /** What a valid form guarantees about the data it hands on. */
  predicate ValidFormData(f: FormData) {
    && TITULO_MIN <= |f.titulo| <= TITULO_MAX
    && |f.descripcion| >= DESCRIPCION_MIN
    && 0 < |f.solicitante| <= USUARIO_MAX
    && 0 < |f.responsable| <= USUARIO_MAX
    && f.tipoSolicitud in TIPO_CODES
  }

  lemma ValidFormGivesValidData(raw: RawForm)
    requires ValidarFormulario(raw).Ok?
    ensures ValidFormData(ValidarFormulario(raw).value)
  {
  }

  /** The title boundary: four characters are refused, five are accepted. */
  lemma TitleBoundary()
    ensures CleanTitulo("abcd").Err?
    ensures CleanTitulo("abcde") == Ok("abcde")
  {
  }
}
