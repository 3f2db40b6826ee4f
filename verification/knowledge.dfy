/** The static bilingual knowledge table of the NADRA assistant
    (`NADRA_KNOWLEDGE` in chatbot/app.py). Every topic carries an English
    ("en") and an Urdu ("ur") answer and nothing else, so a lookup under any
    other language tag fails the way a Python `KeyError` does. */
module Knowledge {
  import opened Wrappers

  /** The eight top-level keys of the table. */
  datatype Topic = IdCard | Passport | Verification | Fee | Documents | Tracking | Centers | Greeting

  /** One row of the table: the English and the Urdu answer. */
  datatype Row = Row(en: string, ur: string)

  /** The row of one topic. */
  function Entry(t: Topic): (row: Row)
    ensures row.en != "" && row.ur != ""
  {
    match t
    case IdCard => Row(IdCardEn, IdCardUr)
    case Passport => Row(PassportEn, PassportUr)
    case Verification => Row(VerificationEn, VerificationUr)
    case Fee => Row(FeeEn, FeeUr)
    case Documents => Row(DocumentsEn, DocumentsUr)
    case Tracking => Row(TrackingEn, TrackingUr)
    case Centers => Row(CentersEn, CentersUr)
    case Greeting => Row(GreetingEn, GreetingUr)
  }

  /** `NADRA_KNOWLEDGE[topic][language]`: the answer when the language tag
      is one of the two keys of the row, otherwise the failing key. */
  function Lookup(t: Topic, language: string): (r: Result<string, string>)
    ensures r.Ok? <==> language == "en" || language == "ur"
    ensures r.Ok? ==> r.value != ""
    ensures r.Err? ==> r.error == language
  {
    var row := Entry(t);
    if language == "en" then Ok(row.en)
    else if language == "ur" then Ok(row.ur)
    else Err(language)
  }

  // The answer texts, verbatim.

  const IdCardEn: string :=
    "To apply for a National ID Card:\n" +
    "1. You must be 18 years or older\n" +
    "2. Required documents: Birth certificate, Family registratio" +
    "n certificate\n" +
    "3. Fee: Rs. 200-500 depending on urgency\n" +
    "4. Processing time: 7-15 days\n" +
    "\n" +
    "Would you like to start an application?"

  const IdCardUr: string :=
    "قومی شناختی کارڈ کے لیے درخواست دینے کے لیے:\n" +
    "1. آپ کی عمر 18 سال یا اس سے زیادہ ہونی چاہیے\n" +
    "2. مطلوبہ دستاویزات: پیدائش کا سرٹیفکیٹ، خاندانی رجسٹریشن سر" +
    "ٹیفکیٹ\n" +
    "3. فیس: Rs. 200-500 عجلت پر منحصر ہے\n" +
    "4. پروسیسنگ ٹائم: 7-15 دن\n" +
    "\n" +
    "کیا آپ درخواست شروع کرنا چاہیں گے?"

  const PassportEn: string :=
    "Pakistan Passport Services:\n" +
    "1. Normal passport: 36 pages or 72 pages\n" +
    "2. Required: Valid CNIC, previous passport (if renewal)\n" +
    "3. Fee: Rs. 3,000 - Rs. 9,000\n" +
    "4. Processing: 10-21 working days\n" +
    "\n" +
    "You can track your passport application online."

  const PassportUr: string :=
    "پاکستان پاسپورٹ سروسز:\n" +
    "1. عام پاسپورٹ: 36 صفحات یا 72 صفحات\n" +
    "2. ضروری: درست CNIC، پچھلا پاسپورٹ (اگر تجدید ہے)\n" +
    "3. فیس: Rs. 3,000 - Rs. 9,000\n" +
    "4. پروسیسنگ: 10-21 کاروباری دن\n" +
    "\n" +
    "آپ اپنی پاسپورٹ درخواست آن لائن ٹریک کر سکتے ہیں۔"

  const VerificationEn: string :=
    "Document Verification Service:\n" +
    "✓ Verify CNIC authenticity\n" +
    "✓ Check family registration\n" +
    "✓ Verify certificates\n" +
    "\n" +
    "Online verification is instant!\n" +
    "Visit verification section or provide document number."

  const VerificationUr: string :=
    "دستاویز کی تصدیق کی خدمت:\n" +
    "✓ CNIC کی صداقت کی تصدیق کریں\n" +
    "✓ خاندانی رجسٹریشن چیک کریں\n" +
    "✓ سرٹیفکیٹ کی تصدیق کریں\n" +
    "\n" +
    "آن لائن تصدیق فوری ہے!\n" +
    "تصدیقی سیکشن ملاحظہ کریں یا دستاویز نمبر فراہم کریں۔"

  const FeeEn: string :=
    "NADRA Service Fees:\n" +
    "• ID Card (Normal): Rs. 200\n" +
    "• ID Card (Urgent): Rs. 500\n" +
    "• Passport (Normal): Rs. 3,000\n" +
    "• Passport (Urgent): Rs. 9,000\n" +
    "• Verification: Rs. 50\n" +
    "• Family Registration: Rs. 300\n" +
    "\n" +
    "Pay online via JazzCash, EasyPaisa, or Credit Card."

  const FeeUr: string :=
    "نادرا سروس فیسیں:\n" +
    "• شناختی کارڈ (عام): Rs. 200\n" +
    "• شناختی کارڈ (فوری): Rs. 500\n" +
    "• پاسپورٹ (عام): Rs. 3,000\n" +
    "• پاسپورٹ (فوری): Rs. 9,000\n" +
    "• تصدیق: Rs. 50\n" +
    "• خاندانی رجسٹریشن: Rs. 300\n" +
    "\n" +
    "آن لائن ادائیگی JazzCash، EasyPaisa، یا کریڈٹ کارڈ کے ذریعے۔"

  const DocumentsEn: string :=
    "Required Documents:\n" +
    "\n" +
    "For ID Card:\n" +
    "- Birth Certificate\n" +
    "- Family Registration Certificate (FRC)\n" +
    "- 2 Passport size photos\n" +
    "\n" +
    "For Passport:\n" +
    "- Valid CNIC\n" +
    "- Previous Passport (for renewal)\n" +
    "- 4 Passport size photos\n" +
    "\n" +
    "Bring originals + photocopies."

  const DocumentsUr: string :=
    "مطلوبہ دستاویزات:\n" +
    "\n" +
    "شناختی کارڈ کے لیے:\n" +
    "- پیدائشی سرٹیفکیٹ\n" +
    "- خاندانی رجسٹریشن سرٹیفکیٹ\n" +
    "- 2 پاسپورٹ سائز تصاویر\n" +
    "\n" +
    "پاسپورٹ کے لیے:\n" +
    "- درست CNIC\n" +
    "- پچھلا پاسپورٹ (تجدید کے لیے)\n" +
    "- 4 پاسپورٹ سائز تصاویر\n" +
    "\n" +
    "اصل + فوٹو کاپیاں ساتھ لائیں۔"

  const TrackingEn: string :=
    "Track Your Application:\n" +
    "\n" +
    "1. Login to your account\n" +
    "2. Go to 'My Applications' dashboard\n" +
    "3. View real-time status\n" +
    "4. Get SMS/WhatsApp updates\n" +
    "\n" +
    "Need your application ID? Check your email or SMS."

  const TrackingUr: string :=
    "اپنی درخواست ٹریک کریں:\n" +
    "\n" +
    "1. اپنے اکاؤنٹ میں لاگ ان کریں\n" +
    "2. 'میری درخواستیں' ڈیش بورڈ پر جائیں\n" +
    "3. حقیقی وقت میں حیثیت دیکھیں\n" +
    "4. SMS/WhatsApp اپ ڈیٹس حاصل کریں\n" +
    "\n" +
    "اپنی درخواست ID چاہیے؟ اپنا ای میل یا SMS چیک کریں۔"

  const CentersEn: string :=
    "NADRA Registration Centers:\n" +
    "\n" +
    "🏢 Find centers near you:\n" +
    "- Major cities: 100+ centers\n" +
    "- Open: Mon-Fri, 8 AM - 5 PM\n" +
    "- Saturday: 9 AM - 2 PM\n" +
    "\n" +
    "Use our Center Locator to find the nearest center with live " +
    "queue status!"

  const CentersUr: string :=
    "نادرا رجسٹریشن مراکز:\n" +
    "\n" +
    "🏢 اپنے قریب مراکز تلاش کریں:\n" +
    "- بڑے شہر: 100+ مراکز\n" +
    "- کھلا: پیر تا جمعہ، 8 صبح - 5 شام\n" +
    "- ہفتہ: 9 صبح - 2 شام\n" +
    "\n" +
    "قریبی مرکز تلاش کرنے کے لیے ہمارا سینٹر لوکیٹر استعمال کریں!"

  const GreetingEn: string :=
    "👋 Hello! I'm NADRA Assistant.\n" +
    "\n" +
    "I can help you with:\n" +
    "✓ ID Card applications\n" +
    "✓ Passport services\n" +
    "✓ Document verification\n" +
    "✓ Fee information\n" +
    "✓ Track applications\n" +
    "✓ Find centers\n" +
    "\n" +
    "How can I assist you today?"

  const GreetingUr: string :=
    "👋 السلام علیکم! میں نادرا اسسٹنٹ ہوں۔\n" +
    "\n" +
    "میں آپ کی مدد کر سکتا ہوں:\n" +
    "✓ شناختی کارڈ کی درخواستیں\n" +
    "✓ پاسپورٹ سروسز\n" +
    "✓ دستاویز کی تصدیق\n" +
    "✓ فیس کی معلومات\n" +
    "✓ درخواستوں کو ٹریک کریں\n" +
    "✓ مراکز تلاش کریں\n" +
    "\n" +
    "آج میں آپ کی کیسے مدد کر سکتا ہوں؟"
}
