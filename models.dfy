/** The user and sample records of the labelling application, the permission rules on a user's
    category and brand allow-lists, and the rule that derives a sample's status from its five
    attribute slots. */
module Models {
  import opened Wrappers

  // The status strings the application writes or tests for.
  const LABELED := "Labeled"
  const INCOMPLETE := "Incomplete"
  const HISTORICAL := "Historical"
  const PRELABELED := "Prelabeled"
  const UNLABELED := "Unlabeled"

  /** A review date, as a day number; only its order matters to the model. */
  type Date = int

  datatype Role = DataAdmin | BuAdmin | Labeller

  /** A user. An absent allow-list (`None`) grants every category (or brand); a present one
      grants exactly the values it lists, so an empty list grants none. */
  datatype User = User(
    username: string,
    role: Role,
    categoryArr: Option<seq<string>>,
    brandArr: Option<seq<string>>,
    isActive: bool)

  predicate HasCategoryPermission(u: User, category: Option<string>) {
    u.categoryArr.None? || (category.Some? && category.value in u.categoryArr.value)
  }

  predicate HasBrandPermission(u: User, brand: Option<string>) {
    u.brandArr.None? || (brand.Some? && brand.value in u.brandArr.value)
  }

  predicate HasPermission(u: User, category: Option<string>, brand: Option<string>) {
    HasCategoryPermission(u, category) && HasBrandPermission(u, brand)
  }

  predicate IsDataAdmin(u: User) { u.role == DataAdmin }
  predicate IsBuAdmin(u: User) { u.role == BuAdmin }
  predicate IsLabeller(u: User) { u.role == Labeller }

  /** An absent allow-list grants everything; an empty one grants nothing; a non-empty one
      grants exactly its members. A NULL category or brand is granted only by an absent list. */
  lemma AllowListSemantics(u: User, category: Option<string>, brand: Option<string>)
    ensures u.categoryArr.None? ==> HasCategoryPermission(u, category)
    ensures u.categoryArr == Some([]) ==> !HasCategoryPermission(u, category)
    ensures u.categoryArr.Some? ==>
              (HasCategoryPermission(u, category) <==> category.Some? && category.value in u.categoryArr.value)
    ensures u.brandArr.None? ==> HasBrandPermission(u, brand)
    ensures u.brandArr == Some([]) ==> !HasBrandPermission(u, brand)
    ensures u.brandArr.Some? ==>
              (HasBrandPermission(u, brand) <==> brand.Some? && brand.value in u.brandArr.value)
    ensures category.None? && u.categoryArr.Some? ==> !HasPermission(u, category, brand)
    ensures HasPermission(u, category, brand) <==>
              HasCategoryPermission(u, category) && HasBrandPermission(u, brand)
  {
  }

  /** The role column is an enum of three values, so each user has exactly one role predicate. */
  lemma ExactlyOneRole(u: User)
    ensures IsDataAdmin(u) || IsBuAdmin(u) || IsLabeller(u)
    ensures !(IsDataAdmin(u) && IsBuAdmin(u))
    ensures !(IsDataAdmin(u) && IsLabeller(u))
    ensures !(IsBuAdmin(u) && IsLabeller(u))
  {
  }

  /** The five label attribute slots `prod_attributes1..5` of a sample. */
  datatype Slots = Slots(a1: Option<string>, a2: Option<string>, a3: Option<string>,
                         a4: Option<string>, a5: Option<string>)

  /** Python truthiness of a nullable string column: present and non-empty. */
  predicate Filled(v: Option<string>) {
    v.Some? && v.value != ""
  }

  /** One row of the sample table. */
  datatype Sample = Sample(
    id: int,
    eRetailer: Option<string>,
    onlineStore: Option<string>,
    category: Option<string>,
    brand: Option<string>,
    isCompetitor: Option<string>,
    productDescription: Option<string>,
    url: Option<string>,
    skuUrl: Option<string>,
    sku: Option<string>,
    skuId: Option<string>,
    retailerProductCode: Option<string>,
    latestReviewDate: Option<Date>,
    imageUrl: Option<string>,
    total: Option<string>,
    totalComments: Option<string>,
    lastMonthTotal: Option<string>,
    lastTotalComments: Option<string>,
    note: Option<string>,
    attrs: Slots,
    status: Option<string>)

  /** The status a save assigns: Labeled when the first slot and at least one other slot are
      filled, Incomplete otherwise. Every save path of the labelling routes uses this rule. */
  function DeriveStatus(s: Slots): (r: string)
    ensures r == LABELED <==> Filled(s.a1) && (Filled(s.a2) || Filled(s.a3) || Filled(s.a4) || Filled(s.a5))
    ensures r == LABELED || r == INCOMPLETE
  {
    if Filled(s.a1) && (Filled(s.a2) || Filled(s.a3) || Filled(s.a4) || Filled(s.a5)) then LABELED
    else INCOMPLETE
  }

  /** The rule on five stored texts: Labeled exactly when the first and some other text are
      non-empty. */
  lemma DeriveStatusOfTexts(a1: string, a2: string, a3: string, a4: string, a5: string)
    ensures DeriveStatus(Slots(Some(a1), Some(a2), Some(a3), Some(a4), Some(a5))) == LABELED
            <==> a1 != "" && (a2 != "" || a3 != "" || a4 != "" || a5 != "")
  {
  }

  /** `SampleData.is_labeled`. */
  predicate IsLabeled(s: Sample) {
    s.status == Some(LABELED) || s.status == Some(HISTORICAL) || s.status == Some(INCOMPLETE)
  }

  /** `is_labeled` holds exactly for the three finished states; pre-labelled, unlabelled, empty
      and NULL statuses are all "not labelled". */
  lemma IsLabeledExactly(s: Sample)
    ensures IsLabeled(s) <==> s.status.Some? && s.status.value in {LABELED, HISTORICAL, INCOMPLETE}
    ensures s.status in {None, Some(""), Some(UNLABELED), Some(PRELABELED)} ==> !IsLabeled(s)
  {
  }

  /** A derived status is never one of the externally seeded states, and a sample that
      carries it counts as labelled. */
  lemma DerivedStatusIsLabeled(s: Sample, slots: Slots)
    requires s.status == Some(DeriveStatus(slots))
    ensures IsLabeled(s)
    ensures s.status != Some(PRELABELED) && s.status != Some(HISTORICAL) && s.status != Some(UNLABELED)
  {
  }
}
