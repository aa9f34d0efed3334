/** The product registration form: a model with its first SKU, validated field by field, turned
    into a trimmed payload, and reset after the product was created. */
module ProductRegistration {
  import opened Wrappers
  import opened Text

  /** The form state kept by the form hook; every field is text as typed. */
  datatype ProductForm = ProductForm(
    nombreModelo: string, descripcion: string, marca: string, categoria: string,
    codigoBarras: string, talla: string, color: string, precioVenta: string)

  /** `initialFormState`: every field empty. */
  const InitialForm := ProductForm("", "", "", "", "", "", "", "")

  /** The error record `validate` builds: one entry per field it can complain about, holding the
      message when that key was set; `descripcion` is optional and has no entry. */
  datatype ProductErrors = ProductErrors(
    nombreModelo: Option<string>, marca: Option<string>, categoria: Option<string>,
    codigoBarras: Option<string>, talla: Option<string>, color: Option<string>,
    precioVenta: Option<string>)

  /** The messages `validate` stores. */
  const NombreModeloRequired := "Nombre del modelo requerido"
  const MarcaRequired := "Marca requerida"
  const CategoriaRequired := "Categoría requerida"
  const CodigoBarrasRequired := "Código de barras requerido"
  const TallaRequired := "Talla requerida"
  const ColorRequired := "Color requerido"
  const PrecioVentaRequired := "Precio de venta válido requerido"

  /** The record with no key set, `{}`. */
  const NoErrors := ProductErrors(None, None, None, None, None, None, None)

  /** The price check: rejected when the text is empty, when `Number(...)` is NaN (`None`) or
      when the number is not positive. */
  predicate BadPrice(text: string, price: Option<real>) {
    text == "" || price.None? || price.value <= 0.0
  }

  /** A form that passes validation, given the numeric reading of its price text. */
  predicate ValidForm(f: ProductForm, price: Option<real>) {
    && !IsBlank(f.nombreModelo) && !IsBlank(f.marca) && !IsBlank(f.categoria)
    && !IsBlank(f.codigoBarras) && !IsBlank(f.talla) && !IsBlank(f.color)
    && !BadPrice(f.precioVenta, price)
  }

  /** The record `validate` builds for a form, given the numeric reading of its price: an entry
      for each blank required field and one for a bad price, none for the description, and none
      at all exactly when the form is valid. */
  function ErrorsOf(f: ProductForm, price: Option<real>): (e: ProductErrors)
    ensures e.nombreModelo.Some? <==> IsBlank(f.nombreModelo)
    ensures e.marca.Some? <==> IsBlank(f.marca)
    ensures e.categoria.Some? <==> IsBlank(f.categoria)
    ensures e.codigoBarras.Some? <==> IsBlank(f.codigoBarras)
    ensures e.talla.Some? <==> IsBlank(f.talla)
    ensures e.color.Some? <==> IsBlank(f.color)
    ensures e.precioVenta.Some? <==> BadPrice(f.precioVenta, price)
    ensures e == NoErrors <==> ValidForm(f, price)
  {
    ProductErrors(
      if IsBlank(f.nombreModelo) then Some(NombreModeloRequired) else None,
      if IsBlank(f.marca) then Some(MarcaRequired) else None,
      if IsBlank(f.categoria) then Some(CategoriaRequired) else None,
      if IsBlank(f.codigoBarras) then Some(CodigoBarrasRequired) else None,
      if IsBlank(f.talla) then Some(TallaRequired) else None,
      if IsBlank(f.color) then Some(ColorRequired) else None,
      if BadPrice(f.precioVenta, price) then Some(PrecioVentaRequired) else None)
  }

  /** What is sent to create the product. */
  datatype ProductPayload = ProductPayload(
    nombreModelo: string, descripcion: Option<string>, marca: string, categoria: string,
    codigoBarras: string, talla: string, color: string, precioVenta: real)

  /** The payload of a form: every required text trimmed (none of them empty when the form is
      valid); the description trimmed, or absent (`null`) exactly when it is blank; the price as
      the number its text reads as. */
  function Payload(f: ProductForm, price: real): (p: ProductPayload)
    ensures p.nombreModelo == Trim(f.nombreModelo) && p.marca == Trim(f.marca) && p.categoria == Trim(f.categoria)
    ensures p.codigoBarras == Trim(f.codigoBarras) && p.talla == Trim(f.talla) && p.color == Trim(f.color)
    ensures ValidForm(f, Some(price)) ==>
      p.nombreModelo != [] && p.marca != [] && p.categoria != [] &&
      p.codigoBarras != [] && p.talla != [] && p.color != []
    ensures p.descripcion.None? <==> IsBlank(f.descripcion)
    ensures p.descripcion.Some? ==> p.descripcion.value == Trim(f.descripcion) && p.descripcion.value != []
    ensures p.precioVenta == price
  {
    TrimIsInfix(f.nombreModelo);
    TrimIsInfix(f.marca);
    TrimIsInfix(f.categoria);
    TrimIsInfix(f.codigoBarras);
    TrimIsInfix(f.talla);
    TrimIsInfix(f.color);
    TrimIsInfix(f.descripcion);
    var d := Trim(f.descripcion);
    ProductPayload(
      Trim(f.nombreModelo), if d == "" then None else Some(d), Trim(f.marca), Trim(f.categoria),
      Trim(f.codigoBarras), Trim(f.talla), Trim(f.color), price)
  }

  /** How a create request ended: the product was created, or the call threw. */
  datatype Outcome = Created | Failed

  class ProductRegister {
    var form: ProductForm
    var errors: ProductErrors

    constructor ()
      ensures form == InitialForm && errors == NoErrors
    {
      form, errors := InitialForm, NoErrors;
    }

    /** `validate`, given `price`, the value of `Number(precioVenta)` (`None` for NaN): each
        required field gets its message exactly when it is blank, the price exactly when its text
        is empty, not a number or not positive; the form is valid exactly when no key was set. */
    method Validate(price: Option<real>) returns (ok: bool)
      modifies this`errors
      ensures errors == ErrorsOf(form, price)
      ensures ok <==> errors == NoErrors
      ensures ok <==> ValidForm(form, price)
    {
      var f := form;
      var e := NoErrors;
      if IsBlank(f.nombreModelo) { e := e.(nombreModelo := Some(NombreModeloRequired)); }
      if IsBlank(f.marca) { e := e.(marca := Some(MarcaRequired)); }
      if IsBlank(f.categoria) { e := e.(categoria := Some(CategoriaRequired)); }
      if IsBlank(f.codigoBarras) { e := e.(codigoBarras := Some(CodigoBarrasRequired)); }
      if IsBlank(f.talla) { e := e.(talla := Some(TallaRequired)); }
      if IsBlank(f.color) { e := e.(color := Some(ColorRequired)); }
      if f.precioVenta == "" || price.None? || price.value <= 0.0 {
        e := e.(precioVenta := Some(PrecioVentaRequired));
      }
      errors := e;
      ok := e == NoErrors;
    }

    /** `handleSubmit`: the record of `validate` is stored either way (the reset clears the
        fields, not the errors); an invalid form sends nothing and keeps what was typed; a valid
        one sends its payload, and the form returns to its initial state only when the product
        was created. */
    method Submit(price: Option<real>, outcome: Outcome) returns (sent: Option<ProductPayload>)
      modifies this
      ensures sent.Some? <==> ValidForm(old(form), price)
      ensures sent.Some? ==> sent.value == Payload(old(form), price.value)
      ensures errors == ErrorsOf(old(form), price)
      ensures errors == NoErrors <==> sent.Some?
      ensures sent.Some? && outcome == Created ==> form == InitialForm
      ensures !(sent.Some? && outcome == Created) ==> form == old(form)
    {
      var ok := Validate(price);
      if !ok {
        return None;
      }
      sent := Some(Payload(form, price.value));
      if outcome == Created {
        form := InitialForm;
      }
    }
  }
}
