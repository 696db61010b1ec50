/** The selection and naming rules of the invoice modal `InvoicePrint`.

    The modal keeps one piece of local state, the template (`'lajutuju'` or
    `'biggor'`, starting at `'lajutuju'`), which picks the layout, the
    watermark image and QR payload of the exported PDF, and the prefix of its
    file name. The invoice number is the first (at most) eight characters of
    the order id, upper-cased; the Laju Tuju header shows it after a `#`, and
    the PDF file name carries it between the template prefix and `.pdf`.
    A keydown listener calls the close callback for the key `Escape`.
 */
module InvoicePrint {

  import SafePhone

  datatype Option<T> = None | Some(value: T)

  /** The two layouts, the literal type `'lajutuju' | 'biggor'`. */
  datatype Template = LajuTuju | Biggor

  /** The order fields that the modelled rules read. */
  datatype Order = Order(id: string, customerPhone: string)

  // ---------------------------------------------------------------------
  // Template state and what it selects

  /** The state the template starts in. */
  const DefaultTemplate: Template := LajuTuju

  /** The string each template is written as, in the state's type and in the
      values of the `<select>` options. */
  function TemplateValue(t: Template): (v: string)
    ensures v == "lajutuju" <==> t == LajuTuju
    ensures v == "biggor" <==> t == Biggor
  {
    match t
    case LajuTuju => "lajutuju"
    case Biggor => "biggor"
  }

  /** The `onChange` handler's reading of an option value. The handler casts
      the value without checking it; the `<select>` only offers the two
      values, which is what the requires clause states. */
  function TemplateOfValue(v: string): (t: Template)
    requires v == "lajutuju" || v == "biggor"
    ensures TemplateValue(t) == v
  {
    if v == "lajutuju" then LajuTuju else Biggor
  }

  /** The option value of a template reads back as that template. */
  lemma TemplateValueRoundTrip(t: Template)
    ensures TemplateOfValue(TemplateValue(t)) == t
  {
  }

  /** The watermark laid over the exported page. */
  function WatermarkSrc(t: Template): (src: string)
    ensures src == "/logo.png" <==> t == LajuTuju
    ensures src == "/biggor.png" <==> t == Biggor
  {
    match t
    case LajuTuju => "/logo.png"
    case Biggor => "/biggor.png"
  }

  /** The brand part of the PDF file name. */
  function FileNamePrefix(t: Template): (p: string)
    ensures p == "Invoice-LajuTuju" <==> t == LajuTuju
    ensures p == "Invoice-Biggor" <==> t == Biggor
  {
    match t
    case LajuTuju => "Invoice-LajuTuju"
    case Biggor => "Invoice-Biggor"
  }

  /** The fixed text encoded by the QR code at the foot of each layout. */
  function QrPayload(t: Template): (text: string)
    ensures text == "Processed by Laju Tuju System" <==> t == LajuTuju
    ensures text == "Processed by Biggor System" <==> t == Biggor
  {
    match t
    case LajuTuju => "Processed by Laju Tuju System"
    case Biggor => "Processed by Biggor System"
  }

  // ---------------------------------------------------------------------
  // Invoice number

  predicate IsAsciiLower(c: char) {
    'a' <= c <= 'z'
  }

  /** `toUpperCase` on one character, restricted to ASCII: `a`-`z` become
      `A`-`Z` and every other character is kept. */
  function UpperChar(c: char): (u: char)
    ensures !IsAsciiLower(u)
    ensures !IsAsciiLower(c) ==> u == c
    ensures IsAsciiLower(c) ==> 'A' <= u <= 'Z' && u as int + 32 == c as int
  {
    if IsAsciiLower(c) then (c as int - 32) as char else c
  }

  /** `toUpperCase` on a string, character by character. */
  function ToUpperAscii(s: string): (r: string)
    ensures |r| == |s|
    ensures forall i :: 0 <= i < |s| ==> r[i] == UpperChar(s[i])
  {
    if |s| == 0 then [] else [UpperChar(s[0])] + ToUpperAscii(s[1..])
  }

  function Min(a: int, b: int): int {
    if a <= b then a else b
  }

  /** `order.id.substring(0, 8).toUpperCase()`: an id shorter than eight
      characters is taken whole. */
  function InvoiceNumber(id: string): (n: string)
    ensures |n| == Min(8, |id|) && |n| <= 8
    ensures forall i :: 0 <= i < |n| ==> n[i] == UpperChar(id[i])
    ensures forall i :: 0 <= i < |n| ==> !IsAsciiLower(n[i])
  {
    ToUpperAscii(id[..Min(8, |id|)])
  }

  /** Taking the prefix and upper-casing commute: the number is also the
      first `min(8, |id|)` characters of the upper-cased id. */
  lemma InvoiceNumberOfUpperCased(id: string)
    ensures InvoiceNumber(id) == ToUpperAscii(id)[..Min(8, |id|)]
  {
    var k := Min(8, |id|);
    var n, u := InvoiceNumber(id), ToUpperAscii(id);
    assert |n| == |u[..k]| == k;
    forall i | 0 <= i < k ensures n[i] == u[..k][i] {
      assert n[i] == UpperChar(id[i]);
      assert u[i] == UpperChar(id[i]);
    }
  }

  /** Upper-casing the id beforehand does not change the number. */
  lemma InvoiceNumberCaseInsensitive(id: string)
    ensures InvoiceNumber(ToUpperAscii(id)) == InvoiceNumber(id)
  {
    var n, u := InvoiceNumber(id), ToUpperAscii(id);
    var m := InvoiceNumber(u);
    assert |m| == |n|;
    forall i | 0 <= i < |n| ensures m[i] == n[i] {
      assert m[i] == UpperChar(u[i]);
      assert u[i] == UpperChar(id[i]);
      assert n[i] == UpperChar(id[i]);
    }
  }

  /** Only the first eight characters of the id matter. */
  lemma InvoiceNumberFirstEight(a: string, b: string)
    requires |a| >= 8 && |b| >= 8 && a[..8] == b[..8]
    ensures InvoiceNumber(a) == InvoiceNumber(b)
  {
    var na, nb := InvoiceNumber(a), InvoiceNumber(b);
    assert forall i :: 0 <= i < 8 ==> na[i] == UpperChar(a[..8][i]) == nb[i];
  }

  /** The number in the Laju Tuju header, `#` followed by the invoice number.
      The Biggor layout shows no invoice number. */
  function HeaderNumber(t: Template, o: Order): (h: Option<string>)
    ensures h.Some? <==> t == LajuTuju
    ensures h.Some? ==> |h.value| == 1 + Min(8, |o.id|) && h.value[0] == '#'
    ensures h.Some? ==> h.value[1..] == InvoiceNumber(o.id)
  {
    if t == LajuTuju then Some("#" + InvoiceNumber(o.id)) else None
  }

  /** The customer's phone as both layouts show it, through `safePhone`.
      It reads back as the stored phone and never shows two digits side by
      side. */
  function DisplayedPhone(o: Order): (text: string)
    ensures SafePhone.ZeroWidthSpace !in o.customerPhone ==>
              SafePhone.StripZeroWidth(text) == o.customerPhone
    ensures forall k :: !SafePhone.DigitPairAt(text, k)
  {
    var p := o.customerPhone;
    SafePhone.SafePhoneNoAdjacentDigits(p);
    if SafePhone.ZeroWidthSpace in p then SafePhone.SafePhone(p)
    else (SafePhone.SafePhoneRoundTrip(p); SafePhone.SafePhone(p))
  }

  // ---------------------------------------------------------------------
  // Export file name

  const PdfExtension: string := ".pdf"

  /** The name handed to `pdf.save`. */
  function FileName(t: Template, o: Order): (f: string)
    ensures t == LajuTuju ==> |f| >= 17 && f[..17] == "Invoice-LajuTuju-"
    ensures t == Biggor ==> |f| >= 15 && f[..15] == "Invoice-Biggor-"
    ensures |f| >= 4 && f[|f| - 4..] == ".pdf"
    ensures |f| == |FileNamePrefix(t)| + 5 + Min(8, |o.id|)
  {
    FileNamePrefix(t) + "-" + InvoiceNumber(o.id) + PdfExtension
  }

  /** `prefix + middle + suffix == f`, read from `f`. */
  function Between(f: string, prefix: string, suffix: string): (m: Option<string>)
    ensures m.Some? ==> prefix + m.value + suffix == f
  {
    if |f| >= |prefix| + |suffix| && f[..|prefix|] == prefix && f[|f| - |suffix|..] == suffix
    then
      var middle := f[|prefix|..|f| - |suffix|];
      assert prefix + middle + suffix == f by {
        assert f == f[..|prefix|] + f[|prefix|..|f| - |suffix|] + f[|f| - |suffix|..];
      }
      Some(middle)
    else None
  }

  /** Reads an export file name back into its template and invoice number. */
  function ParseFileName(f: string): (p: Option<(Template, string)>)
    ensures p.Some? ==> FileNamePrefix(p.value.0) + "-" + p.value.1 + PdfExtension == f
  {
    match Between(f, FileNamePrefix(LajuTuju) + "-", PdfExtension)
    case Some(n) => Some((LajuTuju, n))
    case None =>
      match Between(f, FileNamePrefix(Biggor) + "-", PdfExtension)
      case Some(n) => Some((Biggor, n))
      case None => None
  }

  lemma BetweenOf(prefix: string, middle: string, suffix: string)
    ensures Between(prefix + middle + suffix, prefix, suffix) == Some(middle)
  {
    var f := prefix + middle + suffix;
    assert f[..|prefix|] == prefix;
    assert f[|f| - |suffix|..] == suffix;
    assert f[|prefix|..|f| - |suffix|] == middle;
  }

  /** The file name gives back the template it was made with and the number
      of the order; where the header shows a number, it is that same one. */
  lemma FileNameRoundTrip(t: Template, o: Order)
    ensures ParseFileName(FileName(t, o)) == Some((t, InvoiceNumber(o.id)))
    ensures HeaderNumber(t, o).Some? ==>
              ParseFileName(FileName(t, o)) == Some((t, HeaderNumber(t, o).value[1..]))
  {
    var f := FileName(t, o);
    var n := InvoiceNumber(o.id);
    BetweenOf(FileNamePrefix(t) + "-", n, PdfExtension);
    assert f == (FileNamePrefix(t) + "-") + n + PdfExtension;
    if t == Biggor {
      // "Invoice-Biggor-..." differs from "Invoice-LajuTuju-" at index 8.
      var lt := FileNamePrefix(LajuTuju) + "-";
      assert |f| < |lt| + |PdfExtension| || f[..|lt|] != lt by {
        if |f| >= |lt| + |PdfExtension| {
          assert f[8] == 'B';
          assert lt[8] == 'L';
        }
      }
    }
    if HeaderNumber(t, o).Some? {
      assert HeaderNumber(t, o).value[1..] == n;
    }
  }

  /** Two exports with the same file name used the same template and orders
      with the same invoice number. */
  lemma FileNameInjective(t1: Template, o1: Order, t2: Template, o2: Order)
    requires FileName(t1, o1) == FileName(t2, o2)
    ensures t1 == t2
    ensures InvoiceNumber(o1.id) == InvoiceNumber(o2.id)
  {
    FileNameRoundTrip(t1, o1);
    FileNameRoundTrip(t2, o2);
  }

  /** The order id `a1b2c3d4-xxxx` has the invoice number `A1B2C3D4`. */
  lemma InvoiceNumberExample()
    ensures InvoiceNumber("a1b2c3d4-xxxx") == "A1B2C3D4"
  {
    var n := InvoiceNumber("a1b2c3d4-xxxx");
    assert n == ['A', '1', 'B', '2', 'C', '3', 'D', '4'];
  }

  /** Exported with the Laju Tuju layout, that order is saved as
      `Invoice-LajuTuju-A1B2C3D4.pdf`. */
  lemma FileNameExample()
    ensures FileName(LajuTuju, Order("a1b2c3d4-xxxx", "")) == "Invoice-LajuTuju-A1B2C3D4.pdf"
  {
    InvoiceNumberExample();
  }

  // ---------------------------------------------------------------------
  // Modal state: template and close requests

  /** What the modal's events change: the template, and how many times the
      close callback `onClose` has been called. */
  datatype Modal = Modal(template: Template, closeRequests: nat)

  /** The state when the modal opens. */
  function Open(): (m: Modal)
    ensures m.template == LajuTuju && m.closeRequests == 0
  {
    Modal(DefaultTemplate, 0)
  }

  /** The window keydown listener `handleEscape`; `e.key === 'Escape'` is an
      exact, case-sensitive comparison. */
  function OnKeyDown(m: Modal, key: string): (m': Modal)
    ensures m'.template == m.template
    ensures m'.closeRequests == m.closeRequests + 1 <==> key == "Escape"
    ensures key != "Escape" ==> m' == m
  {
    if key == "Escape" then m.(closeRequests := m.closeRequests + 1) else m
  }

  /** The close button calls `onClose` directly. */
  function OnCloseClick(m: Modal): (m': Modal)
    ensures m'.template == m.template && m'.closeRequests == m.closeRequests + 1
  {
    m.(closeRequests := m.closeRequests + 1)
  }

  /** The `<select>` handler: it sets the template and nothing else. */
  function OnTemplateChange(m: Modal, value: string): (m': Modal)
    requires value == "lajutuju" || value == "biggor"
    ensures TemplateValue(m'.template) == value
    ensures m'.closeRequests == m.closeRequests
  {
    m.(template := TemplateOfValue(value))
  }

  /** Switching to another template and back restores the state. */
  lemma TemplateChangeBack(m: Modal, value: string)
    requires value == "lajutuju" || value == "biggor"
    ensures OnTemplateChange(OnTemplateChange(m, value), TemplateValue(m.template)) == m
  {
    TemplateValueRoundTrip(m.template);
  }

  /** A run of keydown events while the modal is open. */
  function OnKeys(m: Modal, keys: seq<string>): (m': Modal)
    ensures m'.template == m.template
    ensures m'.closeRequests <= m.closeRequests + |keys|
    ensures (forall i :: 0 <= i < |keys| ==> keys[i] != "Escape") ==> m' == m
    decreases |keys|
  {
    if |keys| == 0 then m else OnKeys(OnKeyDown(m, keys[0]), keys[1..])
  }

  /** Over any run of key presses the close callback is called once per
      `Escape` and never otherwise, and the template does not change. */
  lemma {:induction false} OnKeysCountsEscapes(m: Modal, keys: seq<string>)
    ensures OnKeys(m, keys).closeRequests == m.closeRequests + multiset(keys)["Escape"]
    ensures OnKeys(m, keys).template == m.template
    decreases |keys|
  {
    if |keys| > 0 {
      OnKeysCountsEscapes(OnKeyDown(m, keys[0]), keys[1..]);
      assert keys == [keys[0]] + keys[1..];
      assert multiset(keys) == multiset([keys[0]]) + multiset(keys[1..]);
    }
  }
}
