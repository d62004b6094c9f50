/** The gas a message costs before it runs. */
module IntrinsicGas {
  import opened Common

  newtype uint8 = x: int | 0 <= x < 256

  const MAX_UINT64: nat := 0xFFFF_FFFF_FFFF_FFFF

  const TX_GAS: nat := 21000
  const TX_GAS_CONTRACT_CREATION: nat := 53000
  const TX_DATA_ZERO_GAS: nat := 4
  const TX_DATA_NON_ZERO_GAS_FRONTIER: nat := 68
  const TX_DATA_NON_ZERO_GAS_EIP2028: nat := 16
  const INIT_CODE_WORD_GAS: nat := 2
  const TX_ACCESS_LIST_ADDRESS_GAS: nat := 2400
  const TX_ACCESS_LIST_STORAGE_KEY_GAS: nat := 1900

  datatype AccessTuple = AccessTuple(address: int, storageKeys: seq<int>)

  datatype GasResult = Gas(gas: nat) | GasUintOverflow

  /** 64-bit unsigned wrap-around. */
  function Wrap64(x: nat): (r: nat)
    ensures r <= MAX_UINT64
  {
    x % TWO64
  }

  function ToWordSize(size: nat): (r: nat)
    requires size <= MAX_UINT64
    ensures r <= MAX_UINT64 && size <= 32 * r < size + 32
  {
    if size > MAX_UINT64 - 31 then MAX_UINT64 / 32 + 1 else (size + 31) / 32
  }

  function NonZero(data: seq<uint8>): (n: nat)
    ensures n <= |data|
  {
    if data == [] then 0 else NonZero(data[..|data| - 1]) + if data[|data| - 1] != 0 then 1 else 0
  }

  function StorageKeys(list: seq<AccessTuple>): nat {
    if list == [] then 0 else StorageKeys(list[..|list| - 1]) + |list[|list| - 1].storageKeys|
  }

  function BaseGas(creation: bool, homestead: bool): nat {
    if creation && homestead then TX_GAS_CONTRACT_CREATION else TX_GAS
  }

  /** The exact price of the base charge, the data bytes and the init-code words, over the integers. */
  function DataPrice(data: seq<uint8>, creation: bool, homestead: bool, eip2028: bool, eip3860: bool): nat {
    BaseGas(creation, homestead)
    + Cost(NonZero(data), if eip2028 then TX_DATA_NON_ZERO_GAS_EIP2028 else TX_DATA_NON_ZERO_GAS_FRONTIER)
    + Cost(|data| - NonZero(data), TX_DATA_ZERO_GAS)
    + if creation && eip3860 then Cost((|data| + 31) / 32, INIT_CODE_WORD_GAS) else 0
  }

  function Cost(count: nat, unit: nat): nat { count * unit }

  /** The word count is the length over 32, rounded up, and nothing costs nothing. */
  lemma WordsAndNothing(size: nat, unit: nat)
    requires size <= MAX_UINT64
    ensures ToWordSize(size) == (size + 31) / 32
    ensures Cost(0, unit) == 0
  {
  }

  function ListPrice(list: Option<seq<AccessTuple>>): nat {
    match list
    case None => 0
    case Some(l) => |l| * TX_ACCESS_LIST_ADDRESS_GAS + StorageKeys(l) * TX_ACCESS_LIST_STORAGE_KEY_GAS
  }

  /** The price of the data byte by byte: 4 for a zero byte, and 16 or 68 for any other. */
  ghost function BytesPrice(data: seq<uint8>, eip2028: bool): nat {
    if data == [] then 0
    else BytesPrice(data[1..], eip2028) + if data[0] == 0 then 4 else if eip2028 then 16 else 68
  }

  /** The price of the access list entry by entry: 2400 for the address and 1900 for each key. */
  ghost function EntriesPrice(list: seq<AccessTuple>): nat {
    if list == [] then 0 else EntriesPrice(list[1..]) + 2400 + 1900 * |list[0].storageKeys|
  }

  /** What a message costs apart from its access list: 21000, or 53000 for a creation after Homestead, its bytes, and
      for a creation after Shanghai 2 for every word of 32 bytes begun. */
  ghost function PlainPrice(data: seq<uint8>, creation: bool, homestead: bool, eip2028: bool, eip3860: bool): nat {
    (if creation && homestead then 53000 else 21000) + BytesPrice(data, eip2028)
    + if creation && eip3860 then 2 * ((|data| + 31) / 32) else 0
  }

  ghost function PlainList(list: Option<seq<AccessTuple>>): nat {
    match list case None => 0 case Some(l) => EntriesPrice(l)
  }

  lemma {:induction false} NonZeroFirst(data: seq<uint8>)
    requires data != []
    ensures NonZero(data) == NonZero(data[1..]) + if data[0] != 0 then 1 else 0
    decreases |data|
  {
    if |data| > 1 {
      var front := data[..|data| - 1];
      NonZeroFirst(front);
      assert data[1..][..|data| - 2] == front[1..];
    }
  }

  lemma {:induction false} BytesAre(data: seq<uint8>, eip2028: bool)
    ensures BytesPrice(data, eip2028)
         == NonZero(data) * (if eip2028 then 16 else 68) + (|data| - NonZero(data)) * 4
  {
    if data != [] {
      BytesAre(data[1..], eip2028);
      NonZeroFirst(data);
    }
  }

  lemma {:induction false} KeysFirst(list: seq<AccessTuple>)
    requires list != []
    ensures StorageKeys(list) == StorageKeys(list[1..]) + |list[0].storageKeys|
    decreases |list|
  {
    if |list| > 1 {
      var front := list[..|list| - 1];
      KeysFirst(front);
      assert list[1..][..|list| - 2] == front[1..];
    }
  }

  lemma {:induction false} EntriesAre(list: seq<AccessTuple>)
    ensures EntriesPrice(list) == |list| * 2400 + StorageKeys(list) * 1900
  {
    if list != [] {
      EntriesAre(list[1..]);
      KeysFirst(list);
    }
  }

  /** The counted price is the price byte by byte and entry by entry. */
  lemma PriceIs(data: seq<uint8>, list: Option<seq<AccessTuple>>, creation: bool, homestead: bool, eip2028: bool,
                eip3860: bool)
    ensures DataPrice(data, creation, homestead, eip2028, eip3860)
         == PlainPrice(data, creation, homestead, eip2028, eip3860)
    ensures ListPrice(list) == PlainList(list)
  {
    BytesAre(data, eip2028);
    if list.Some? { EntriesAre(list.value); }
  }

  /** The division test: count units fit into the room exactly when count is at most the quotient. */
  lemma DivTest(room: nat, unit: nat, count: nat)
    requires unit > 0
    ensures count <= room / unit <==> count * unit <= room
  {
    var q := room / unit;
    QuotientBounds(room, unit);
    if count <= q { TimesMono(count, q, unit); } else { TimesMono(q + 1, count, unit); }
  }

  lemma QuotientBounds(room: nat, unit: nat)
    requires unit > 0
    ensures room / unit * unit <= room < (room / unit + 1) * unit
  {
    assert room == room / unit * unit + room % unit;
    assert (room / unit + 1) * unit == room / unit * unit + unit;
  }

  lemma TimesMono(a: nat, b: nat, unit: nat)
    requires a <= b
    ensures a * unit <= b * unit
  {
    assert b * unit == a * unit + (b - a) * unit;
  }

  /** Adding count units of gas with the division test for overflow: it fails exactly when the exact sum
      does not fit 64 bits. */
  function Charge(gas: nat, unit: nat, count: nat): (r: Option<nat>)
    requires gas <= MAX_UINT64 && unit > 0
    ensures r.None? <==> gas + Cost(count, unit) > MAX_UINT64
    ensures r.Some? ==> r.value == gas + Cost(count, unit)
  {
    DivTest(MAX_UINT64 - gas, unit, count);
    if (MAX_UINT64 - gas) / unit < count then None else Some(gas + count * unit)
  }

  lemma WrapAdd(a: nat, b: nat)
    ensures Wrap64(Wrap64(a) + Wrap64(b)) == Wrap64(a + b)
  {
    var q, p := a / TWO64, b / TWO64;
    assert a == q * TWO64 + a % TWO64 && b == p * TWO64 + b % TWO64;
    WrapSkip(a % TWO64 + b % TWO64, q + p);
  }

  /** Whole multiples of 2^64 do not matter. */
  lemma {:induction false} WrapSkip(x: nat, q: nat)
    ensures (x + q * TWO64) % TWO64 == x % TWO64
  {
    if q > 0 { WrapSkip(x, q - 1); }
  }

  method CountNonZero(data: seq<uint8>) returns (nz: nat)
    ensures nz == NonZero(data)
  {
    nz := 0;
    for i := 0 to |data|
      invariant nz == NonZero(data[..i])
    {
      assert data[..i + 1][..i] == data[..i];
      if data[i] != 0 { nz := nz + 1; }
    }
    assert data[..|data|] == data;
  }

  method DataGas(data: seq<uint8>, isContractCreation: bool, isHomestead: bool, isEIP2028: bool, isEIP3860: bool)
    returns (r: GasResult)
    requires |data| <= MAX_UINT64
    ensures var price := DataPrice(data, isContractCreation, isHomestead, isEIP2028, isEIP3860);
            r == if price > MAX_UINT64 then GasUintOverflow else Gas(price)
  {
    hide Charge, NonZero, ToWordSize, Cost;
    WordsAndNothing(|data|, INIT_CODE_WORD_GAS);
    WordsAndNothing(|data|, TX_DATA_ZERO_GAS);
    var gas := BaseGas(isContractCreation, isHomestead);
    var dataLen := |data|;
    if dataLen > 0 {
      var nz := CountNonZero(data);
      var nonZeroGas: nat := if isEIP2028 then TX_DATA_NON_ZERO_GAS_EIP2028 else TX_DATA_NON_ZERO_GAS_FRONTIER;
      var charged := Charge(gas, nonZeroGas, nz);
      if charged.None? { return GasUintOverflow; }
      var z := dataLen - nz;
      charged := Charge(charged.value, TX_DATA_ZERO_GAS, z);
      if charged.None? { return GasUintOverflow; }
      if isContractCreation && isEIP3860 {
        var lenWords := ToWordSize(dataLen);
        charged := Charge(charged.value, INIT_CODE_WORD_GAS, lenWords);
        if charged.None? { return GasUintOverflow; }
      }
      gas := charged.value;
    } else {
      WordsAndNothing(|data|, TX_DATA_NON_ZERO_GAS_EIP2028);
      WordsAndNothing(|data|, TX_DATA_NON_ZERO_GAS_FRONTIER);
    }
    r := Gas(gas);
  }

  method IntrinsicGas(data: seq<uint8>, accessList: Option<seq<AccessTuple>>, isContractCreation: bool,
                      isHomestead: bool,
                      isEIP2028: bool, isEIP3860: bool) returns (r: GasResult)
    requires |data| <= MAX_UINT64
    ensures r.GasUintOverflow? <==> DataPrice(data, isContractCreation, isHomestead, isEIP2028, isEIP3860) > MAX_UINT64
    ensures r.Gas?
            ==> r.gas == Wrap64(DataPrice(data, isContractCreation, isHomestead, isEIP2028, isEIP3860)
            + ListPrice(accessList))
    ensures var price := PlainPrice(data, isContractCreation, isHomestead, isEIP2028, isEIP3860);
            r == if price >= TWO64 then GasUintOverflow else Gas((price + PlainList(accessList)) % TWO64)
  {
    PriceIs(data, accessList, isContractCreation, isHomestead, isEIP2028, isEIP3860);
    WrapIs(DataPrice(data, isContractCreation, isHomestead, isEIP2028, isEIP3860) + ListPrice(accessList));
    hide Wrap64, DataPrice, PlainPrice, PlainList;
    r := DataGas(data, isContractCreation, isHomestead, isEIP2028, isEIP3860);
    if r.GasUintOverflow? { return; }
    var gas := r.gas;
    SmallWrap(gas);
    if accessList.Some? {
      var addresses := |accessList.value| * TX_ACCESS_LIST_ADDRESS_GAS;
      var keys := StorageKeys(accessList.value) * TX_ACCESS_LIST_STORAGE_KEY_GAS;
      WrapAdd(gas, addresses);
      WrapAdd(gas + addresses, keys);
      gas := Wrap64(gas + Wrap64(addresses));
      gas := Wrap64(gas + Wrap64(keys));
    }
    r := Gas(gas);
  }

  lemma WrapIs(x: nat)
    ensures Wrap64(x) == x % TWO64
  {
  }

  lemma SmallWrap(x: nat)
    requires x <= MAX_UINT64
    ensures Wrap64(x) == x
  {
  }
}
