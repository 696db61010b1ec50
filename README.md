# InvoicePrint rules in Dafny

`InvoicePrint` is a React modal of a vehicle-rental dashboard. It shows an
invoice for one order in one of two layouts, Laju Tuju or Biggor. It can
print the invoice, export it to a PDF, and close on a button or on Escape.
Most of the component is layout, DOM mutation and calls into html2canvas,
jsPDF and a QR-code renderer. This project models the deterministic rules
inside it, as Dafny functions, and proves their properties as lemmas.

- `safe_phone.dfy`, module `SafePhone`: the `safePhone` display rewrite.
  It is the regular expression `(\d)(?=\d)`, applied globally, with the
  replacement `$1` followed by U+200B (ZERO WIDTH SPACE). The model is a
  recursive function over `string`. Its inverse `StripZeroWidth` deletes
  every U+200B. The lemmas place every input character at its image
  `i + SeparatorsBefore(s, i)` in the output. They show that a separator
  follows a character exactly when that character and the next one are
  ASCII digits. They also prove the length formula, the round trip, that
  the output has no two adjacent digits, and that the rewrite is idempotent.
- `invoice_print.dfy`, module `InvoicePrint`: the rest of the rules.
  - The template is a two-constructor datatype that starts at Laju Tuju.
    Total selection functions give its watermark image, file-name prefix
    and QR payload.
  - The invoice number is the first `min(8, |id|)` characters of the order
    id, upper-cased. The Laju Tuju header shows it after `#`; the Biggor
    header shows no number.
  - The PDF file name is the prefix, `-`, the number and `.pdf`. The inverse
    `ParseFileName` reads a file name back, and the round trip is proved.
  - The modal's event handlers act on a value holding the template and a
    count of calls to the close callback `onClose`.

The modelled rules read only the `template` state, which `setTemplate`
replaces as a whole, and the order passed in as a prop. They are single
expressions without loops, so the model uses values and functions only.
The in-place DOM and style updates of `handleDownloadPDF` and the mutable
`invoiceRef` are left out (see "## Left out").

## Model

| member | source | states |
|---|---|---|
| SafePhone.IsDigitChars | src/components/InvoicePrint.tsx:51 | The regular-expression class `\d`, matched without the `u` flag, accepts exactly the ten characters `0123456789` and no other digit |
| SafePhone.SafePhone | src/components/InvoicePrint.tsx:51 | The rewrite itself: a non-empty phone string gives a non-empty result that starts with the same character, because the replacement keeps the matched digit `$1` in front of the inserted U+200B |
| SafePhone.StripZeroWidth | src/components/InvoicePrint.tsx:51 | The inverse of the rewrite: its result contains no U+200B and is never longer than its input |
| SafePhone.StripZeroWidthIdentity | src/components/InvoicePrint.tsx:51 | A string without U+200B is returned by the inverse unchanged |
| SafePhone.SafePhoneLength | src/components/InvoicePrint.tsx:51 | The output length is the input length plus the number of positions i where s[i] and s[i+1] are both ASCII digits |
| SafePhone.SafePhoneImage | src/components/InvoicePrint.tsx:51 | Every input character s[i] appears in the output at position i + (digit pairs starting before i), so order is kept; when s[i] and s[i+1] are digits, a U+200B comes right after it |
| SafePhone.SafePhoneNext | src/components/InvoicePrint.tsx:51 | The image of s[i+1] is 2 after that of s[i] for a digit pair and 1 after otherwise, and then the output holds s[i+1] right after s[i]. The lookahead is not consumed, and nothing follows the last character, so no separator trails a run of digits or comes before a non-digit |
| SafePhone.SeparatorIffDigitPair | src/components/InvoicePrint.tsx:51 | For an input without U+200B, the character after the image of s[i] is U+200B if and only if s[i] and s[i+1] are both ASCII digits |
| SafePhone.StripSafePhone | src/components/InvoicePrint.tsx:51 | Deleting every U+200B from the output gives the input with its own U+200B deleted |
| SafePhone.SafePhoneRoundTrip | src/components/InvoicePrint.tsx:51 | For an input without U+200B, deleting the separators from the output gives back the input exactly |
| SafePhone.SafePhoneNoPairs | src/components/InvoicePrint.tsx:51 | A string with no two adjacent digits is returned unchanged; this includes the empty string |
| SafePhone.SafePhoneNoAdjacentDigits | src/components/InvoicePrint.tsx:51 | The output never has two adjacent ASCII digits, which is what keeps mobile browsers from detecting a telephone number |
| SafePhone.SafePhoneIdempotent | src/components/InvoicePrint.tsx:51 | Rewriting an already rewritten phone string changes nothing |
| SafePhone.SafePhoneCons | src/components/InvoicePrint.tsx:51 | Putting one character in front of a string puts it in front of the rewrite, followed by U+200B exactly when it and the next character are digits |
| SafePhone.SafePhoneAppend | src/components/InvoicePrint.tsx:51 | The rewrite of a concatenation is the concatenation of the rewrites, with one U+200B at the seam exactly when a digit meets a digit there |
| SafePhone.SafePhoneExample | src/components/InvoicePrint.tsx:51 | `0812345678` becomes its ten digits in order with U+200B between each adjacent pair |
| InvoicePrint.TemplateValue | src/components/InvoicePrint.tsx:14 | Laju Tuju is written `'lajutuju'` and Biggor `'biggor'`, each literal naming exactly one template, as the comparisons `template === 'lajutuju'` at lines 63, 103 and 157 rely on |
| InvoicePrint.TemplateOfValue | src/components/InvoicePrint.tsx:125-131 | The select handler maps each of the two option values to the template written as that value |
| InvoicePrint.TemplateValueRoundTrip | src/components/InvoicePrint.tsx:125-131 | The option value of a template reads back as that template |
| InvoicePrint.Open | src/components/InvoicePrint.tsx:14 | The modal opens with the template `'lajutuju'`, before any close request |
| InvoicePrint.WatermarkSrc | src/components/InvoicePrint.tsx:63 | The watermark is `/logo.png` exactly when the template is Laju Tuju, and `/biggor.png` exactly when it is Biggor |
| InvoicePrint.FileNamePrefix | src/components/InvoicePrint.tsx:103 | The file-name prefix is `Invoice-LajuTuju` exactly for Laju Tuju and `Invoice-Biggor` exactly for Biggor |
| InvoicePrint.QrPayload | src/components/InvoicePrint.tsx:241 | The QR text is `Processed by Laju Tuju System` exactly for Laju Tuju, and `Processed by Biggor System` (line 350) exactly for Biggor |
| InvoicePrint.UpperChar | src/components/InvoicePrint.tsx:104 | ASCII upper-casing of one character: the result is never a lower-case ASCII letter; `a`-`z` map to `A`-`Z`, and every other character is kept |
| InvoicePrint.ToUpperAscii | src/components/InvoicePrint.tsx:104 | Upper-casing keeps the length and upper-cases each character at its own position |
| InvoicePrint.InvoiceNumber | src/components/InvoicePrint.tsx:104 | The invoice number has length min(8, length of the id), so never more than 8. Character i is id[i] upper-cased, and no lower-case ASCII letter remains |
| InvoicePrint.InvoiceNumberOfUpperCased | src/components/InvoicePrint.tsx:104 | Truncating and upper-casing commute: the number is the first min(8, length of the id) characters of the upper-cased id |
| InvoicePrint.InvoiceNumberCaseInsensitive | src/components/InvoicePrint.tsx:104 | Upper-casing the id first gives the same invoice number |
| InvoicePrint.InvoiceNumberFirstEight | src/components/InvoicePrint.tsx:104 | Two ids of at least 8 characters that agree on their first 8 get the same invoice number |
| InvoicePrint.InvoiceNumberExample | src/components/InvoicePrint.tsx:175 | The order id `a1b2c3d4-xxxx` has the invoice number `A1B2C3D4` |
| InvoicePrint.HeaderNumber | src/components/InvoicePrint.tsx:157-178 | A header number is shown exactly in the Laju Tuju layout; it is `#` followed by exactly the invoice number, so one character longer |
| InvoicePrint.DisplayedPhone | src/components/InvoicePrint.tsx:188 | The customer phone as both layouts render it (lines 188 and 284): it never shows two adjacent ASCII digits, and deleting its U+200B gives back a stored phone that had none |
| InvoicePrint.FileName | src/components/InvoicePrint.tsx:102-106 | The file name starts with `Invoice-LajuTuju-` for Laju Tuju or `Invoice-Biggor-` for Biggor and ends with `.pdf`; its length is the prefix plus 5 plus min(8, length of the id) |
| InvoicePrint.ParseFileName | src/components/InvoicePrint.tsx:102-106 | Any template and number read back from a name rebuild that exact name |
| InvoicePrint.FileNameRoundTrip | src/components/InvoicePrint.tsx:102-106 | Parsing the file name gives back its template and the order's invoice number; when the header shows a number, it is the same number |
| InvoicePrint.FileNameInjective | src/components/InvoicePrint.tsx:102-106 | Equal file names imply the same template and the same invoice number |
| InvoicePrint.FileNameExample | src/components/InvoicePrint.tsx:102-106 | Order `a1b2c3d4-xxxx` exported with Laju Tuju is saved as `Invoice-LajuTuju-A1B2C3D4.pdf` |
| InvoicePrint.OnKeyDown | src/components/InvoicePrint.tsx:29-31 | The keydown handler calls the close callback if and only if the key is exactly `Escape`; any other key leaves the state unchanged, and the template never changes |
| InvoicePrint.OnKeys | src/components/InvoicePrint.tsx:29-33 | A sequence of key presses delivered to the registered listener never changes the template, adds at most one close request per key, and changes nothing when no key is `Escape` |
| InvoicePrint.OnKeysCountsEscapes | src/components/InvoicePrint.tsx:28-33 | Over any sequence of key presses, the close callback is called once per `Escape` in it, and the template is unchanged |
| InvoicePrint.OnCloseClick | src/components/InvoicePrint.tsx:146-148 | The close button calls the close callback once and keeps the template |
| InvoicePrint.OnTemplateChange | src/components/InvoicePrint.tsx:123-127 | The select handler sets the template to the chosen value and does not call the close callback |
| InvoicePrint.TemplateChangeBack | src/components/InvoicePrint.tsx:123-127 | Switching to a template and back restores the modal state |

## Left out

- `formatCurrency` and `formatDate` (lines 37-49) depend on the `Intl`
  locale data for `id-ID`, which is not part of this model.
- Printing (`window.print`) and the PDF export pipeline are left out. That
  pipeline is html2canvas rasterisation, PNG encoding, jsPDF page assembly,
  the page-height computation in floating point, and the save call. These
  are foreign libraries and floating point; only the file name passed to
  `pdf.save` is modelled.
- The DOM work around the export is left out. `handleDownloadPDF` updates
  the DOM in place through the mutable `invoiceRef` (lines 57-112), and
  returns early when the ref is not attached. It covers appending and
  removing the watermark, saving, overriding and restoring the container's
  styles, and the 300 ms settle delay. It also covers the unguarded race
  when two exports overlap. Whether the styles come back exactly depends on
  `CSSStyleDeclaration` semantics that are not visible here. The watermark
  source it uses is modelled (`WatermarkSrc`).
- The `useEffect` lifecycle is left out. It covers adding and removing the
  `format-detection` meta tag and registering and removing the keydown
  listener. `OnKeyDown` and `OnKeysCountsEscapes` describe the listener while
  it is registered; after unmount no key reaches it.
- UpperChar: upper-cases ASCII `a`-`z` only. JavaScript's `toUpperCase` also
  maps non-ASCII letters and can change the length (`ß` becomes `SS`). Order
  ids are hex or UUID-like, so the model keeps every non-ASCII character.
- InvoiceNumber: counts characters as Dafny `char`s, which are Unicode scalar
  values. `substring` counts UTF-16 code units, and the two agree for ASCII
  ids.
- TemplateOfValue: requires one of the two option values. The source casts
  `e.target.value` without checking it, and its `<select>` offers only
  those two values.
- The Order record keeps only the id and the customer phone, the two fields
  a modelled rule reads. The dates, customer name and address, items and
  total are not modelled, because they are only formatted for display. The JSX layout, row striping and static contact and bank text are
  presentation only.
- `src/types/html2pdf.d.ts` (type declarations) and `vite.config.ts` (build
  configuration) hold no logic.
