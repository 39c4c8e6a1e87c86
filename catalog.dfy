/** The static study material: flashcards, case studies and knowledge areas, with the
    shape facts the flashcard and case-study sessions depend on. */
module Catalog {
  import opened Seqs

  datatype CardDifficulty = Easy | Medium | Hard

  datatype FlashCard = FlashCard(
    id: string,
    question: string,
    answer: string,
    category: string,
    difficulty: CardDifficulty,
    tags: seq<string>)

  datatype CaseDifficulty = Beginner | Intermediate | Advanced

  /** One multiple-choice question; `correctAnswer` is an index into `options`. */
  datatype Question = Question(
    id: string,
    question: string,
    options: seq<string>,
    correctAnswer: int,
    explanation: string)

  datatype CaseStudy = CaseStudy(
    id: string,
    title: string,
    difficulty: CaseDifficulty,
    duration: string,
    description: string,
    scenario: string,
    questions: seq<Question>,
    learningObjectives: seq<string>)

  datatype KnowledgeArea = KnowledgeArea(name: string, topics: seq<string>)

  /** A question can be answered and marked: at least two options, and the key is one of them. */
  predicate WellFormedQuestion(q: Question) {
    |q.options| >= 2 && 0 <= q.correctAnswer < |q.options|
  }

  /** A case can be scored: it has a question to divide by, and every question is well formed. */
  predicate WellFormedCase(c: CaseStudy) {
    |c.questions| >= 1 && forall q :: q in c.questions ==> WellFormedQuestion(q)
  }

  /** The correct option of each question, in question order. */
  function AnswerKey(c: CaseStudy): (key: seq<int>)
    ensures |key| == |c.questions|
    ensures forall i :: 0 <= i < |key| ==> key[i] == c.questions[i].correctAnswer
  {
    seq(|c.questions|, i requires 0 <= i < |c.questions| => c.questions[i].correctAnswer)
  }

  function CardIds(cards: seq<FlashCard>): seq<string> {
    seq(|cards|, i requires 0 <= i < |cards| => cards[i].id)
  }

  function CaseIds(cases: seq<CaseStudy>): seq<string> {
    seq(|cases|, i requires 0 <= i < |cases| => cases[i].id)
  }

  function AreaNames(areas: seq<KnowledgeArea>): seq<string> {
    seq(|areas|, i requires 0 <= i < |areas| => areas[i].name)
  }

  const Flashcards: seq<FlashCard> := [
    FlashCard(
      "fc1",
      "What are the absolute contraindications for thoracotomy?",
      "Absolute contraindications include: severe cardiovascular instability, coagulopathy that cannot be corrected, and patient refusal. Relative contraindications include advanced age, severe comorbidities, and poor functional status.",
      "Emergency Procedures",
      Medium,
      ["thoracotomy", "contraindications", "emergency"]),
    FlashCard(
      "fc2",
      "Name the key anatomical landmarks for chest tube insertion.",
      "The safe triangle is bounded by: anterior border of latissimus dorsi, lateral border of pectoralis major, and a line superior to the horizontal level of the nipple. Insert at the 4th or 5th intercostal space.",
      "Emergency Procedures",
      Easy,
      ["chest tube", "anatomy", "landmarks"]),
    FlashCard(
      "fc3",
      "What is the TNM staging for T3N2M0 lung cancer?",
      "T3: Tumor >7cm or separate tumor nodules in different ipsilateral lobe. N2: Metastasis to ipsilateral mediastinal/subcarinal lymph nodes. M0: No distant metastasis. This represents Stage IIIA disease.",
      "Lung Cancer Management",
      Hard,
      ["TNM staging", "lung cancer", "oncology"]),
    FlashCard(
      "fc4",
      "What are the indications for VATS lobectomy?",
      "VATS lobectomy is indicated for: early-stage NSCLC (T1-T2, N0-N1), benign lesions requiring lobectomy, metastatic disease to lung, and selected cases of inflammatory disease. Contraindications include extensive pleural adhesions, large tumors >6cm, and chest wall invasion.",
      "VATS Techniques",
      Medium,
      ["VATS", "lobectomy", "indications"]),
    FlashCard(
      "fc5",
      "Describe the management of massive hemothorax.",
      "Massive hemothorax (>1500ml or >200ml/hr) requires: immediate large-bore chest tube (32-36Fr), aggressive fluid resuscitation, type and crossmatch, urgent thoracotomy if >1500ml initial drainage or >200ml/hr ongoing. Consider autotransfusion if available.",
      "Chest Trauma",
      Hard,
      ["hemothorax", "trauma", "emergency"]),
    FlashCard(
      "fc6",
      "What are the key components of enhanced recovery after thoracic surgery (ERATS)?",
      "ERATS includes: preoperative counseling, avoiding prolonged fasting, multimodal analgesia, early mobilization, early chest tube removal, minimally invasive techniques when possible, and standardized discharge criteria.",
      "Post-operative Care",
      Medium,
      ["ERATS", "recovery", "postoperative"])
  ]

  const CaseStudies: seq<CaseStudy> := [
    CaseStudy(
      "case1",
      "Emergency Pneumothorax",
      Intermediate,
      "15 min",
      "A 25-year-old athlete presents with sudden chest pain and shortness of breath",
      "A 25-year-old professional basketball player presents to the emergency department with sudden onset of severe right-sided chest pain and shortness of breath that began during practice 2 hours ago. He has no significant medical history and takes no medications. On examination, he appears anxious and is using accessory muscles to breathe. Vital signs: HR 110, BP 130/80, RR 28, O2 sat 92% on room air.",
      [
        Question(
          "q1",
          "What is the most likely diagnosis based on the presentation?",
          ["Myocardial infarction", "Spontaneous pneumothorax", "Pulmonary embolism", "Costochondritis"],
          1,
          "The sudden onset of chest pain and dyspnea in a young, tall, athletic male is classic for spontaneous pneumothorax. This demographic has a higher risk due to subpleural blebs."),
        Question(
          "q2",
          "What is the next most appropriate diagnostic step?",
          ["CT chest with contrast", "Chest X-ray", "ECG", "D-dimer"],
          1,
          "Chest X-ray is the initial imaging of choice for suspected pneumothorax. It can quickly confirm the diagnosis and assess the size of the pneumothorax."),
        Question(
          "q3",
          "The chest X-ray shows a 40% right-sided pneumothorax. What is the most appropriate management?",
          ["Observation and oxygen therapy", "Needle decompression", "Chest tube insertion", "Emergency thoracotomy"],
          2,
          "A 40% pneumothorax in a symptomatic patient requires chest tube insertion. The threshold is typically >20% or any size with symptoms.")
      ],
      ["Recognize the clinical presentation of spontaneous pneumothorax", "Understand the appropriate diagnostic workup", "Know the indications for different treatment modalities", "Understand the risk factors and demographics"]),
    CaseStudy(
      "case2",
      "Lung Cancer Staging",
      Advanced,
      "25 min",
      "Complex case involving T3N2M0 non-small cell lung cancer",
      "A 65-year-old male smoker presents with a 3-month history of cough, weight loss, and hemoptysis. CT chest shows a 8cm mass in the right upper lobe with separate nodules in the right lower lobe. Mediastinal lymph nodes are enlarged. PET scan shows uptake in the primary tumor, mediastinal nodes, and no distant metastases. Bronchoscopy confirms adenocarcinoma.",
      [
        Question(
          "q1",
          "What is the T stage of this tumor?",
          ["T1", "T2", "T3", "T4"],
          2,
          "T3 because the tumor is >7cm and there are separate tumor nodules in a different ipsilateral lobe (right lower lobe nodules with primary in right upper lobe)."),
        Question(
          "q2",
          "Based on enlarged mediastinal nodes on imaging, what is the most likely N stage?",
          ["N0", "N1", "N2", "N3"],
          2,
          "N2 indicates metastasis to ipsilateral mediastinal and/or subcarinal lymph nodes, which matches the imaging findings."),
        Question(
          "q3",
          "What is the overall stage of this cancer?",
          ["Stage IIA", "Stage IIB", "Stage IIIA", "Stage IIIB"],
          2,
          "T3N2M0 corresponds to Stage IIIA disease according to the 8th edition TNM staging system.")
      ],
      ["Master TNM staging for lung cancer", "Understand the 8th edition staging changes", "Correlate imaging findings with staging", "Know treatment implications of different stages"]),
    CaseStudy(
      "case3",
      "Chest Trauma Assessment",
      Beginner,
      "10 min",
      "Multi-trauma patient with suspected thoracic injuries",
      "A 30-year-old male is brought to the trauma bay following a high-speed motor vehicle collision. He is conscious but complains of severe chest pain. Primary survey reveals stable airway, decreased breath sounds on the left, and hemodynamically stable. Chest X-ray shows multiple left-sided rib fractures and a small pneumothorax.",
      [
        Question(
          "q1",
          "What is the most immediate concern in this patient?",
          ["Pain management", "Pneumothorax progression", "Flail chest development", "Hemothorax development"],
          1,
          "In trauma patients, pneumothorax can progress rapidly, especially with positive pressure ventilation. Close monitoring is essential."),
        Question(
          "q2",
          "What is the threshold for chest tube insertion in traumatic pneumothorax?",
          ["Any size pneumothorax", "Only if >50%", "Only if symptomatic", "Only if tension develops"],
          0,
          "In trauma patients, any pneumothorax typically warrants chest tube insertion due to risk of progression and need for positive pressure ventilation.")
      ],
      ["Understand trauma assessment priorities", "Know indications for chest tube in trauma", "Recognize complications of chest trauma", "Understand monitoring requirements"])
  ]

  const KnowledgeAreas: seq<KnowledgeArea> := [
    KnowledgeArea("Emergency Procedures", ["Pneumothorax", "Hemothorax", "Chest Tube", "Thoracotomy"]),
    KnowledgeArea("VATS Techniques", ["Lobectomy", "Wedge Resection", "Pleurodesis", "Biopsy"]),
    KnowledgeArea("Lung Cancer Management", ["Staging", "Surgical Planning", "Adjuvant Therapy", "Follow-up"]),
    KnowledgeArea("Chest Trauma", ["Assessment", "Management", "Complications", "Recovery"]),
    KnowledgeArea("Post-operative Care", ["Pain Management", "Complications", "Recovery", "Discharge"])
  ]

  /** Every case in the catalog can be scored and every answer key points at an option. */
  lemma CaseStudiesWellFormed()
    ensures forall c :: c in CaseStudies ==> WellFormedCase(c)
  {
  }

  /** Every question in the catalog offers exactly four options. */
  lemma FourOptionsEverywhere()
    ensures forall c, q :: c in CaseStudies && q in c.questions ==> |q.options| == 4
  {
  }

  /** The deck is non-empty (six cards), so modular navigation over it is defined. */
  lemma FlashcardDeckSize()
    ensures |Flashcards| == 6
  {
  }

  /** Card identifiers and case identifiers are each pairwise distinct. */
  lemma CatalogIdsDistinct()
    ensures NoDuplicates(CardIds(Flashcards))
    ensures NoDuplicates(CaseIds(CaseStudies))
  {
  }

  /** Every card's category names one of the knowledge areas. */
  lemma CardCategoriesAreKnownAreas()
    ensures forall c :: c in Flashcards ==> c.category in AreaNames(KnowledgeAreas)
  {
    var names := AreaNames(KnowledgeAreas);
    assert names[0] == "Emergency Procedures" && names[1] == "VATS Techniques";
    assert names[2] == "Lung Cancer Management" && names[3] == "Chest Trauma";
    assert names[4] == "Post-operative Care";
  }
}
